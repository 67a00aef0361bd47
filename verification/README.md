# mixd identity repair, verified

Dafny models of the code in mixd that deletes, folds, re-owns and deduplicates rows under foreign keys and
uniqueness keys, of the fixpoint and walks in its test checker, and of its span accounting. The database is a
finite map from row ids to rows; a partial unique index is a predicate over that map, CASCADE, RESTRICT and SET NULL
are spelled out, and one SQL statement is one step. Where the order of rows in a statement, of rows behind a LIMIT or of
elements of a Python set is not fixed, the model picks any, and the theorems hold for every choice.

| modules | part of mixd |
|---|---|
| `Sql`, `PurgePredicates`, `PurgeWalks`, `PurgeClosure`, `PurgeTrails`, `PurgeOwnership`, `PurgeAttributable`, `PurgeOrder`, `PurgeRun`, `PurgeNullOwner` | the residue-tenant purge: predicates built over an arbitrary foreign-key graph, two checks, delete order, backup, delete |
| `Relocation`, `FoldTables`, `FoldState`, `FoldGroups`, `FoldRenames`, `FoldElection`, `FoldPrimaries`, `FoldOutcome`, `LastfmFold` | migration 035, the Last.fm identifier fold |
| `BatchedCollapse`, `DenormRepair` | migrations 040 and 044, batched repairs |
| `Tenancy`, `Reown`, `MergePairs` | cross-tenant re-own, and merge up to the merge service |
| `Cleanup` | the phased cleanup of mistenanted tracks |
| `VacuityHelpers`, `VacuityWalks` | the vacuity checker's helper fixpoint and its two worklists |
| `Telemetry` | the span recorder |

Main results:

- **Purge.** What the composed SQL refuses, and what it means on a row, is told by walks over the foreign keys and trails of rows
  (`PurgeWalks`, `PurgeTrails`). The checks walk all edges, the closure walks CASCADE edges; `PurgeOwnership.OwnedIsClosure` shows
  that the two are equal when the checks find nothing, and `PurgeRun.Connection.Run` says for every input which answer is given
  and carries the equality through the deletes to the exact final database.
- **Fold.** `LastfmFold.Upgrade` runs the whole migration on a database whose every write is refused unless the constraints
  hold, and ends with one canonical row for each key, the right one by the columns of the initial rows, with everything the
  others had on record, best mappings, and primaries kept; `LastfmFold.UpgradeTwice` is idempotence.
- **Re-own.** `Reown.RefusalsAreExact`: for one owner the clash queries are complete and none is idle, after each row.
- **Cleanup.** `Cleanup.Run` gives the answer and the fate of every row, by its own columns, for every input; phase 3 cannot fail.
- **Fixpoint.** `VacuityHelpers.AssertingHelpers` returns the unique least solution whatever the visiting order.

Where the code and its own documentation disagree, the model follows the code:

- The purge promises to be exhaustive over the foreign-key graph. A row whose `user_id` is NULL makes `NOT in_delete_set`
  NULL, so the second check does not count it. `PurgeRun.Connection.DeleteTenant` proves that the purge is exact if and only
  if no such row points into the closure; `PurgeNullOwner` gives one. Among the shipped tables only `workflows.user_id` is nullable, and
  that table has no non-cascading key into tenant tables, so nothing there is affected today.
- `blockers_for` says that an empty result always means the move is safe. That holds for the tracks of one owner. `_run`
  applies several owners in turn, and the run completes if and only if no two of them bring the same ISRC or the same live
  connector track (`Reown.Apply`, `Reown.UnrefusedPlanCanFail`).
- Migration 044 calls its second pass collision-free because a connector track belongs to one canonical track per user.
  `DenormRepair.Catalog.PrePass` proves when: for every choice of batches the pre-pass completes if and only if, among the
  collapsed mappings, no two tracks of one user have first primary mappings with the same identifier. Unique live keys alone
  do not give that (`DenormRepair.PrePassCanFail`); agreement of mapping and connector row on the connector does.
- The cleanup guards look at plays. Likes, tags and other dependents of another tenant pass them and are deleted by cascade;
  `Cleanup.OthersUntouchedIff` says exactly when nothing of another tenant is touched.
- `top_operations` folds the rest into `other`, and overwrites an operation that is itself listed under that name
  (`Telemetry.TopOperationsKeepsTheCount` has the exact condition).
- The purge script reads RESTRICT as checked at the end of the statement, the cleanup script as checked row by row. Each model
  takes its script's reading; for the cleanup that is the stricter one.

## Model

| member | source | states |
|---|---|---|
| Sql.CascadeSetIsLeast | scripts/purge_residue_tenants.py:1158-1171 | What one DELETE removes is the least set that holds the named rows and is closed under cascading children. |
| Sql.DeleteOfUnreferencedRows | scripts/purge_residue_tenants.py:1166-1171 | A DELETE whose rows are referenced only by rows of the same statement commits, cascades into nothing, rewrites nothing and trips no RESTRICT, because restricting actions are checked at statement end. |
| PurgePredicates.CascadeTermsAre | scripts/purge_residue_tenants.py:508-521 | The branches of `in_delete_set` are exactly the cascading foreign keys of the table, self-references excepted, each with its parent's own predicate. |
| PurgePredicates.ElsewhereTermsAre | scripts/purge_residue_tenants.py:534-571 | The branches of `attributed_elsewhere` are exactly the foreign keys of any kind that lead to an attributable table off the current path. |
| PurgePredicates.OwnedTermsAre | scripts/purge_residue_tenants.py:573-609 | The same for `owned_by_tenant`, the predicate the purge deletes by. |
| PurgeWalks.RefusedIffNineCascades | scripts/purge_residue_tenants.py:495-519 | `in_delete_set` refuses a table if and only if nine CASCADE keys between different tables follow one another from it; a cycle counts, since it can be followed for ever. |
| PurgeWalks.PresentIffCascadesToOwner | scripts/purge_residue_tenants.py:505-521 | Unless refused, a table gets a predicate if and only if CASCADE keys lead from it to a table with a `user_id`. |
| PurgeWalks.AttributionRefusedIffNineSteps | scripts/purge_residue_tenants.py:534-609 | Both attribution builders refuse a table if and only if nine keys of any kind lead from it through attributable tables without a `user_id`, never back to a table already met. |
| PurgeWalks.OwnerIffWalk | scripts/purge_residue_tenants.py:573-609 | A table has an ownership predicate if and only if it is not refused and such a walk reaches a table with a `user_id`. |
| PurgeTrails.ElsewhereMeans | scripts/purge_residue_tenants.py:523-571 | `attributed_elsewhere` is never NULL and holds of a row if and only if some trail of rows along foreign keys leads from it to a row of anybody but the tenant. |
| PurgeTrails.SourceMeans | scripts/purge_residue_tenants.py:534-571 | Each source holds of exactly the rows whose trail starts along its own foreign key. |
| PurgeTrails.OwnedMeans | scripts/purge_residue_tenants.py:573-609 | `owned_by_tenant` holds of a row if and only if some trail leads to the tenant and none leads to anybody else, although the nested predicates look along different paths. |
| PurgeClosure.InDeleteSetIsClosure | scripts/purge_residue_tenants.py:495-521 | On every table from which no nine CASCADE keys in a row lead, the nested EXISTS predicate holds of a row if and only if the row is in the least set of tenant rows closed under CASCADE children. |
| PurgeClosure.ClosureTablesAreComplete | scripts/purge_residue_tenants.py:612-620 | `closure_tables` lists exactly the tables from which CASCADE keys lead to a table with a `user_id`, and no row of the closure lies elsewhere. |
| PurgeClosure.UnknownMeansNoOwner | scripts/purge_residue_tenants.py:505-507 | The predicate is SQL-unknown exactly on rows outside the closure whose own `user_id` is NULL. |
| PurgeClosure.ClosureIsEmptyAfterwards | scripts/purge_residue_tenants.py:1362-1368 | A database minus its closure has an empty closure, so the re-count is zero. |
| PurgeOwnership.CountSources | scripts/purge_residue_tenants.py:733-752 | The blockers of one table are one for each foreign key along which some closure row is traced away from the tenant, each with the number of those rows. |
| PurgeOwnership.FindCascadeBlast | scripts/purge_residue_tenants.py:714-782 | The blockers found are exactly the true ones: per table and foreign key the closure rows traced to somebody else, and per table those traced to nobody; it refuses if and only if from some closure table nine steps lead towards an owner. |
| PurgeOwnership.FindBlockingReferences | scripts/purge_residue_tenants.py:785-849 | There is a blocker for exactly those non-cascading keys through which a row outside the closure, whose owner is not NULL, names a row inside it, with the number of such pairs. |
| PurgeWalks.OwnedExistsWithElsewhere | scripts/purge_residue_tenants.py:534-609 | A table has an ownership predicate exactly when it has an attribution predicate, although one is built from sources and the other from branches. |
| PurgeOwnership.ClosureRowIsOwned | scripts/purge_residue_tenants.py:573-609 | When nothing is to report, every row of the closure satisfies the ownership predicate and none the other. |
| PurgeOwnership.NobodyMeans | scripts/purge_residue_tenants.py:754-782 | NOT owned AND NOT elsewhere, three-valued, selects exactly the closure rows no trail leads from. |
| PurgeOwnership.PointsInMeans | scripts/purge_residue_tenants.py:785-849 | The join of the second check, three-valued NOT included, selects exactly the references into the closure by outside rows with an owner. |
| PurgeOwnership.SafeIffNoReason | scripts/purge_residue_tenants.py:1317-1342 | There is nothing to report if and only if every closure row is the tenant's alone, where that can be told, and nobody with an owner names one from outside. |
| PurgeOwnership.TracedRowIsInClosure | scripts/purge_residue_tenants.py:573-609 | When nothing is to report, every row traced to the tenant, along any path of edges, is in the cascade closure. |
| PurgeOwnership.ReferrerOfClosureRow | scripts/purge_residue_tenants.py:785-849 | When nothing is to report, a row that names a closure row is in the closure itself, or is one with a NULL owner that the second check cannot see. |
| PurgeOwnership.OwnedIsClosure | scripts/purge_residue_tenants.py:495-609 | Inside the closure and owned by the tenant denote the same rows of every closure table, for any attributability oracle and any schema, cyclic ones included. |
| PurgeAttributable.Attribution.IsAttributable | scripts/purge_residue_tenants.py:478-492 | The memoised answer is sound on every graph, and on acyclic ones it is true exactly when some path of foreign keys reaches a user-scoped table, whatever the memo already held. |
| PurgeAttributable.DeleteTableHasOwner | scripts/purge_residue_tenants.py:1176-1181 | A table with a delete predicate always has an ownership predicate when the oracle knows every traceable table, so the purge never lacks one. |
| PurgeOrder.LongWalkIsCyclic | scripts/purge_residue_tenants.py:637-649 | A walk with as many edges as there are tables proves a cycle: the round bound is justified. |
| PurgeOrder.RelaxOnce | scripts/purge_residue_tenants.py:638-644 | One round of relaxation keeps every depth witnessed by a walk and covers walks one edge longer; a round that still changes something exhibits a long walk. |
| PurgeOrder.SortTables | scripts/purge_residue_tenants.py:650 | The result holds the tables once each, by descending depth, then name. |
| PurgeOrder.NameLeqIsLexicographic | scripts/purge_residue_tenants.py:650 | Ties go by name: the first differing character decides, and a proper prefix comes first. |
| PurgeOrder.DeleteOrder | scripts/purge_residue_tenants.py:623-650 | It refuses if and only if the restricted graph has a cycle; otherwise it returns the tables with every child before its parent, and each depth is the longest foreign-key walk from that table. |
| PurgeRun.EvalIsStable | scripts/purge_residue_tenants.py:1158-1164 | A predicate has the same value on a surviving row after other rows are gone, as long as survivors keep their parents. |
| PurgeRun.DoomedIsClosure | scripts/purge_residue_tenants.py:1174-1187 | Half way through the purge, the rows an ownership DELETE names are still exactly the closure's rows of that table. |
| PurgeRun.StatementRemovesClosure | scripts/purge_residue_tenants.py:1174-1187 | Each DELETE of the purge commits and removes exactly its own table's share of the closure. |
| PurgeRun.ExactPurgeHadNoUnseenReferrer | scripts/purge_residue_tenants.py:811-815 | If the database minus the closure is legal, no row with a NULL owner pointed into the closure. |
| PurgeRun.CountClosure | scripts/purge_residue_tenants.py:661-680 | The counts per table and their total are those of the cascade closure. |
| PurgeRun.BackupRestores | scripts/purge_residue_tenants.py:1097-1152 | Rows dumped by the closure predicate, put back after the purge, restore the original database. |
| PurgeRun.DumpBackup | scripts/purge_residue_tenants.py:1097-1152 | The dump holds each closure row once, and its line count is the size of the closure. |
| PurgeRun.Connection.Execute | scripts/purge_residue_tenants.py:1182-1187 | One DELETE statement with cascading, nulling and restricting references either commits its whole effect or changes nothing. |
| PurgeRun.Connection.DeleteTenant | scripts/purge_residue_tenants.py:1155-1190 | On a tenant the checks cleared, the loop succeeds and ends in the original database minus the closure if and only if no row with a NULL owner points into the closure; its counts are then the closure's. |
| PurgeRun.Connection.RunChecks | scripts/purge_residue_tenants.py:1317-1325 | Both checks together report every reason against deleting and nothing else; the list is empty if and only if the tenant is safe to delete. |
| PurgeRun.Connection.Examine | scripts/purge_residue_tenants.py:1237-1350 | Each answer is given if and only if its condition holds: nothing to delete on an empty closure; blocked, with exactly the true blockers, when something is live or unsafe; a dry run's order or the go-ahead, children first, when nothing speaks against it. |
| PurgeRun.Connection.Report | scripts/purge_residue_tenants.py:1284-1350 | The same from the counts on, for a schema that loaded. |
| PurgeRun.Connection.Run | scripts/purge_residue_tenants.py:1237-1381 | Each answer if and only if its condition on request, schema walks and rows holds. A run that does not purge changes nothing; one that does leaves no closure row and no dangling reference, holds a backup that restores the original, and deleted exactly the closure if and only if no unseen referrer existed; a deletable tenant whose tables lead to an owner is never stopped halfway. |
| PurgeRun.Connection.Purge | scripts/purge_residue_tenants.py:1352-1370 | Backup, delete and re-count as one transaction: all of it or none. |
| PurgeNullOwner.ChecksMissNullOwner | scripts/purge_residue_tenants.py:811-815 | A concrete schema and database pass both checks although a row with a NULL owner points into the closure. |
| PurgeNullOwner.PurgeRewritesTheRow | scripts/purge_residue_tenants.py:1155-1171 | On that database the DELETE rewrites the row by SET NULL: the docstring's "exhaustive over the FK graph" does not cover nullable owners. |
| FoldTables.MappingBeats | alembic/versions/035_lastfm_identifier_fold.py:163-175 | The rule is the strict order by manual override, then primary, then confidence. |
| FoldGroups.LoadCandidates | alembic/versions/035_lastfm_identifier_fold.py:183-225 | Each group holds, in id order, exactly the rows with its recomputed key, and every keyed row is in a group; what a candidate's count is worth is stated by `FoldOutcome.KeptByColumns`. |
| FoldGroups.ChooseSurvivor | alembic/versions/035_lastfm_identifier_fold.py:228-233 | A row that already carries the key wins; otherwise the survivor is a best member by mapping count, age and id. |
| Relocation.MoveKeepsOnePerKey | alembic/versions/035_lastfm_identifier_fold.py:272-323 | Moving or dropping one row by the conflict rule keeps one row for each key. |
| Relocation.AllMoved | alembic/versions/035_lastfm_identifier_fold.py:272-373 | When a loser's rows have all been visited, each key at the survivor is held by a maximum of the rows that competed for it. |
| Relocation.RehomedCompose | alembic/versions/035_lastfm_identifier_fold.py:468-501 | Maxima survive folding step after step: after all losers, each key is held by a maximum of the initial rows. |
| FoldTables.Library.MoveMappings | alembic/versions/035_lastfm_identifier_fold.py:272-323 | For every order of rows, (user, connector track, connector) stays unique after each statement, nothing is left on the loser, and the survivor holds a best row of each key; every pair whose rows changed is reported as affected. |
| FoldTables.Library.MoveReviews | alembic/versions/035_lastfm_identifier_fold.py:326-373 | The same for reviews, where the earliest one wins. |
| FoldTables.Library.RepointPlaylist | alembic/versions/035_lastfm_identifier_fold.py:376-390 | Every playlist entry of the loser names the survivor, and no other entry changes. |
| FoldTables.Library.DeleteTrack | alembic/versions/035_lastfm_identifier_fold.py:497-501 | A connector track is deleted only when no mapping, review or playlist entry names it, so no cascade can fire. |
| FoldTables.MovingKeepsOnePrimary | alembic/versions/035_lastfm_identifier_fold.py:272-323 | Moving mappings between connector tracks never gives a (user, track) pair a second primary. |
| FoldState.EmptyAndDelete | alembic/versions/035_lastfm_identifier_fold.py:489-501 | Emptying a loser makes its delete legal; rows, keys and playlist entries end where the survivor is. |
| FoldState.Absorb | alembic/versions/035_lastfm_identifier_fold.py:489-501 | One absorption keeps the whole fold invariant, from the initial state to now. |
| FoldGroups.GroupMetaKeepsProvenance | alembic/versions/035_lastfm_identifier_fold.py:487-505 | In the merged metadata each folded identifier, and each one any row of the group had recorded, is in `folded_from`, and no other key of the survivor is lost. |
| FoldGroups.DedupeKeepsOrder | alembic/versions/035_lastfm_identifier_fold.py:138-146 | Deduplication keeps identifiers in the order of their first appearance. |
| FoldElection.GroupElects | alembic/versions/035_lastfm_identifier_fold.py:468-520 | Folding a group elects its survivor, asks for exactly its own rename and disturbs no other group. |
| FoldElection.AssignmentElects | alembic/versions/035_lastfm_identifier_fold.py:557-586 | A rename settles the metadata of its own group, an absorbed occupant's included, and disturbs no other. |
| FoldElection.ElectedKeepsProvenance | alembic/versions/035_lastfm_identifier_fold.py:487-586 | In the final table the row of each group records every identifier that was folded into it or that its rows had on record. |
| FoldElection.AbsorptionKeepsProvenance | alembic/versions/035_lastfm_identifier_fold.py:566-573 | Absorbing an occupant keeps what phase 1 had recorded. |
| FoldGroups.FoldLosers | alembic/versions/035_lastfm_identifier_fold.py:489-501 | For every order of the losers the invariant holds after each, and only the losers are gone. |
| FoldGroups.FoldGroup | alembic/versions/035_lastfm_identifier_fold.py:468-520 | The group ends as its survivor alone, its row holding the merged metadata when no rename is deferred; a rename is deferred exactly when its identifier is not the key; a canonical group of one is left alone. |
| FoldRenames.TmpIsInjective | alembic/versions/035_lastfm_identifier_fold.py:548-555 | Parked rows have different temporary identifiers. |
| FoldRenames.TmpIsNoKey | alembic/versions/035_lastfm_identifier_fold.py:548-555 | No temporary identifier is a fold key. |
| FoldRenames.ParkingStaysUnique | alembic/versions/035_lastfm_identifier_fold.py:543-555 | Identifiers are unique after any subset of the renames has been parked. |
| FoldRenames.OccupantIsUnfoldable | alembic/versions/035_lastfm_identifier_fold.py:433-466 | In phase 2 only a row without a key can hold a target. |
| FoldRenames.Phase1Step | alembic/versions/035_lastfm_identifier_fold.py:531-541 | After each group the keys done so far have one row each and the deferred renames are exactly the rows still to be renamed. |
| FoldRenames.Phase2Step | alembic/versions/035_lastfm_identifier_fold.py:556-586 | Each assignment gives one row its key and leaves the others parked or canonical. |
| FoldRenames.NoTemporariesAtTheEnd | alembic/versions/035_lastfm_identifier_fold.py:543-586 | No temporary identifier is left. |
| FoldPrimaries.ReassertPrimaries | alembic/versions/035_lastfm_identifier_fold.py:392-430 | Every touched pair that has a Last.fm mapping ends with a primary; no intermediate state has two and nothing else changes. |
| LastfmFold.FoldAllGroups | alembic/versions/035_lastfm_identifier_fold.py:531-541 | For every order of the groups, the fold of all groups satisfies the phase-1 picture, and changes nothing on canonical rows. |
| LastfmFold.ParkAll | alembic/versions/035_lastfm_identifier_fold.py:543-555 | Every deferred row is parked and identifiers are unique after each statement. |
| LastfmFold.AssignOne | alembic/versions/035_lastfm_identifier_fold.py:557-586 | The occupant, if any, is absorbed before the rename, so the unique index accepts it; the row ends with the group's metadata, or with the occupant's merged under it. |
| LastfmFold.AssignAll | alembic/versions/035_lastfm_identifier_fold.py:556-586 | After phase 2 every keyed row carries its key and every row without one keeps its identifier. |
| FoldOutcome.CanonicalMeansOneRow | alembic/versions/035_lastfm_identifier_fold.py:523-586 | Then each key has exactly one row. |
| FoldOutcome.KeysSurvive | alembic/versions/035_lastfm_identifier_fold.py:523-586 | No key is lost and no row of another connector changes. |
| FoldOutcome.MovedMappingsSettle | alembic/versions/035_lastfm_identifier_fold.py:163-175 | The mapping that remains for each key is a maximum of the initial ones under the conflict rule. |
| FoldOutcome.PairsKeepPrimaries | alembic/versions/035_lastfm_identifier_fold.py:392-430 | No (user, track) pair that had a primary and still has a mapping loses it. |
| FoldOutcome.RaisedAreBest | alembic/versions/035_lastfm_identifier_fold.py:392-430 | A mapping that is promoted is the best of its pair by manual override, confidence and id, in the final table. |
| FoldOutcome.FoldKeyMeans | alembic/versions/035_lastfm_identifier_fold.py:183-225 | A row has a key exactly when it is a Last.fm row with neither side blank, and the key joins its normalized artist and title. |
| FoldOutcome.MergeTakesTheFirst | alembic/versions/035_lastfm_identifier_fold.py:493-495 | A key the survivor's metadata lacks comes from the first loser that has it. |
| FoldOutcome.KeptByColumns | alembic/versions/035_lastfm_identifier_fold.py:228-233 | In columns: of the rows with one normalized artist and title, the one that already carried the key stays; otherwise one that at least as many mappings name as any other, older, then with the lower id. It ends on the key and lists what it took in. |
| FoldOutcome.OthersKeptByColumns | alembic/versions/035_lastfm_identifier_fold.py:433-466 | A row without a key is as it was, or went into the row whose key it held, which has its metadata. |
| FoldOutcome.HeldByColumns | alembic/versions/035_lastfm_identifier_fold.py:163-175 | For each initial mapping one of its user and connector stays where its row went, at least as strong by override, primary and confidence. |
| FoldOutcome.RaisedByColumns | alembic/versions/035_lastfm_identifier_fold.py:178-180 | A mapping raised to primary goes before every other of its user and track by override, confidence and id. |
| LastfmFold.Upgrade | alembic/versions/035_lastfm_identifier_fold.py:523-600 | The whole migration, every statement accepted by the constraints, ends in the folded state; in columns, the right row of each key stays with what the others had on record, the right mapping of each slot stays, the right one becomes primary, and keyless rows stay or go into the row whose key they held; no row changes when every keyed row is already canonical. |
| LastfmFold.UpgradeTwice | alembic/versions/035_lastfm_identifier_fold.py:523-600 | The migration is idempotent: a second run changes no row of any table. |
| BatchedCollapse.GroupHasKeeper | alembic/versions/040_plays_nulls_not_distinct.py:100-106 | Every duplicate has a lower-id row of its key that is not itself a duplicate. |
| BatchedCollapse.BatchKeepsCollapsing | alembic/versions/040_plays_nulls_not_distinct.py:100-112 | Deleting any batch of duplicates, keepers of others included, keeps every group's lowest row and finds no new duplicates. |
| BatchedCollapse.CollapseEnds | alembic/versions/040_plays_nulls_not_distinct.py:89-112 | When no duplicate is left, what remains is exactly the lowest-id row of each key. |
| BatchedCollapse.KeptIsOnePerKey | alembic/versions/040_plays_nulls_not_distinct.py:89-112 | What is kept has one row for each key, with the lowest id of its group. |
| BatchedCollapse.KeptAreLowest | alembic/versions/040_plays_nulls_not_distinct.py:89-112 | In columns: only rows with NULL `ms_played` go, each leaves an equal row with a lower id, and no two equal ones stay. |
| BatchedCollapse.KeyedTable.CollapseDuplicates | alembic/versions/040_plays_nulls_not_distinct.py:89-112 | For every choice of rows in every batch the loop ends with exactly those rows, and its total is the number of rows that went. |
| BatchedCollapse.RebuildNeedsCollapse | alembic/versions/040_plays_nulls_not_distinct.py:115-140 | The NULLS NOT DISTINCT constraint can be built if and only if no duplicate is left. |
| BatchedCollapse.RebuildSucceeds | alembic/versions/040_plays_nulls_not_distinct.py:115-140 | After the collapse it can be built. |
| DenormRepair.CollapsedKeysAreUnique | alembic/versions/044_track_mappings_supersession.py:116-135 | In columns: no two mappings left agree in user, connector track and connector, and each one deleted leaves a lower id that does agree with it. |
| DenormRepair.Catalog.CollapseDuplicateLiveKeys | alembic/versions/044_track_mappings_supersession.py:116-135 | The same for every choice of batches, with the number of mappings that went. |
| DenormRepair.PrimaryIdentifier | alembic/versions/044_track_mappings_supersession.py:138-158 | NULL exactly when the track has no primary mapping for the connector; otherwise the identifier of the lowest-id one. |
| DenormRepair.CollapseMakesClaimsDistinct | alembic/versions/044_track_mappings_supersession.py:188-190 | "A connector track belongs to exactly one canonical track per user" after the collapse, when mapping and connector track agree on the connector. |
| DenormRepair.WriteFitsIffFree | alembic/versions/044_track_mappings_supersession.py:190-202 | One row write is accepted by the unique index if and only if no other track of the user holds the value. |
| DenormRepair.PartFits | alembic/versions/044_track_mappings_supersession.py:161-171 | If all of a pass fits under the index, so does every part of it, in any order. |
| DenormRepair.ClearingFits | alembic/versions/044_track_mappings_supersession.py:175-187 | Pass 1 never trips the index. |
| DenormRepair.AssigningFitsIffDistinct | alembic/versions/044_track_mappings_supersession.py:188-201 | After pass 1, pass 2 fits if and only if no two tracks of one user claimed one identifier at the start. |
| DenormRepair.Catalog.UpdateRows | alembic/versions/044_track_mappings_supersession.py:176-201 | One UPDATE over a batch, row by row in any order, succeeds if and only if the whole batch fits, and otherwise changes nothing. |
| DenormRepair.Catalog.RunBatched | alembic/versions/044_track_mappings_supersession.py:161-171 | For every choice of batches the loop ends; it does all of the pass's work if and only if the pass fits, counts each row once, and on failure keeps the batches before. |
| DenormRepair.SecondPassWork | alembic/versions/044_track_mappings_supersession.py:188-201 | What pass 1 leaves to pass 2 is every track with a claim its column did not hold at the start. |
| DenormRepair.Catalog.RepairColumn | alembic/versions/044_track_mappings_supersession.py:174-202 | For every choice of batches it completes if and only if the claims are distinct, with every track's column equal to its primary mapping's identifier or NULL; otherwise the column is unique and each track holds its claim or NULL. It counts the columns that disagreed and, when it completes, the claims that were missing. |
| DenormRepair.Catalog.PrePass | alembic/versions/044_track_mappings_supersession.py:205-219 | Of each (user, connector track, connector) the lowest mapping stays, column by column. The pre-pass completes if and only if the claims of what stays are distinct for `spotify_id` and for `mbid`, each column then holding its own connector's claim; a failure of the first leaves the second alone, and no other column changes. |
| DenormRepair.ClaimsCanCollide | alembic/versions/044_track_mappings_supersession.py:188-190 | A catalog with unique live keys and identifiers on which two tracks of one user claim one identifier. |
| DenormRepair.PrePassCanFail | alembic/versions/044_track_mappings_supersession.py:188-219 | On that catalog the pre-pass stops whatever its batches: the comment's "collision-free" is not unconditional. |
| Tenancy.FitsIffNothingBlocks | scripts/reown_cross_tenant_tracks.py:744-779 | Rows of one owner can all become the user's if and only if the user holds none of their index keys. |
| Tenancy.PartFits | scripts/reown_cross_tenant_tracks.py:744-779 | If the whole move fits, so does every part of it: uniqueness holds after each row. |
| Tenancy.Store.IsFree | scripts/reown_cross_tenant_tracks.py:744-779 | The column-by-column probe agrees with the unique indexes. |
| Reown.BlockIsClash | scripts/reown_cross_tenant_tracks.py:286-325 | Whatever would break a unique index is found by one of the clash queries. |
| Reown.ClashIsBlock | scripts/reown_cross_tenant_tracks.py:286-325 | Each constraint clash really breaks an index. |
| Reown.RefusalsAreExact | scripts/reown_cross_tenant_tracks.py:614-625 | For tracks of one owner the refusals are complete and none is idle: every subset of the travelling rows can move if and only if no constraint clash is set. |
| Reown.BlockersFor | scripts/reown_cross_tenant_tracks.py:614-625 | A reason is given if and only if its clash column is set: the user owns a track with the same ISRC, or with the same normalized title and artist, both known, or a companion row that would collide. |
| Reown.BlockedIff | scripts/reown_cross_tenant_tracks.py:286-325 | A track is refused if and only if a constraint clash is set or the user owns a track with the same normalized title and artist. |
| Reown.TravellingMeans | scripts/reown_cross_tenant_tracks.py:757-777 | What the five UPDATEs move is, table by table, the owner's tracks and the owner's rows that name one. |
| Reown.PlanByOwner | scripts/reown_cross_tenant_tracks.py:1357-1362 | The plan holds exactly the discovered tracks without a blocker, one part for each owner. |
| Reown.UpdateUser | scripts/reown_cross_tenant_tracks.py:757-777 | The UPDATE succeeds exactly when the moved table is unique, and then has moved exactly the matching rows. |
| Reown.ReownTracks | scripts/reown_cross_tenant_tracks.py:744-779 | Over all batches and tables the transaction commits exactly when everything that travels can move; then the owner's tracks and the rows that name one have the new user, nothing else changed and the counts are exact; otherwise nothing changed. |
| Reown.SharedAcrossOwners | scripts/reown_cross_tenant_tracks.py:744-779 | Rows travelling with different owners' tracks can only meet on an ISRC or a live connector track. |
| Reown.Apply | scripts/reown_cross_tenant_tracks.py:1357-1389 | Owner after owner: the run completes if and only if no two owners bring the same ISRC or the same live connector track; a failure leaves exactly the earlier owners' rows with the user. |
| Reown.UnrefusedPlanCanFail | scripts/reown_cross_tenant_tracks.py:617-619 | A plan without a single blocker that fails, against the docstring's "an empty result always means the move is safe". |
| MergePairs.OwnMappingOnLoserRefuses | scripts/reown_cross_tenant_tracks.py:447-458 | A live mapping the user holds on the loser counts itself as a clash. |
| MergePairs.AssertPairStillValid | scripts/reown_cross_tenant_tracks.py:1155-1174 | The recheck passes if and only if the winner is the user's track and the loser somebody else's. |
| MergePairs.AssertNothingWillCascade | scripts/reown_cross_tenant_tracks.py:1177-1200 | It passes if and only if no review is on the loser and no negative names it as candidate. |
| MergePairs.EdgesAreRecorded | scripts/reown_cross_tenant_tracks.py:1220-1249 | In columns: each edge leads from a live mapping of the owner on the loser, now superseded by its successor, to the user's live mapping on the winner of the same connector track and connector, and each such pair has one edge. |
| MergePairs.Conflate | scripts/reown_cross_tenant_tracks.py:491-513 | The conflating UPDATE retires exactly the loser's mappings that the user already holds on the winner, each to the successor its one edge names, keeps every index unique after each row, and changes no other row. |
| MergePairs.RestFits | scripts/reown_cross_tenant_tracks.py:1253-1265 | Without a refusal the remaining rows of the loser fit under the user. |
| MergePairs.NothingForeignRemains | scripts/reown_cross_tenant_tracks.py:1203-1275 | No mapping or metric of the loser is left to its old owner or to a third tenant. |
| MergePairs.EveryClaimSurvives | scripts/reown_cross_tenant_tracks.py:1203-1275 | Every live claim of the old owner is afterwards a live claim of the user, as the same row or as the row it was retired into. |
| MergePairs.NothingElseChanges | scripts/reown_cross_tenant_tracks.py:1203-1275 | No other row changes. |
| MergePairs.FitsAsAWhole | scripts/reown_cross_tenant_tracks.py:1253-1275 | Metrics have no unique key with a user in it, so the mappings alone decide whether the hand-over fits. |
| MergePairs.CountsInColumns | scripts/reown_cross_tenant_tracks.py:1253-1283 | The rowcounts are the owner's mappings without an edge and the owner's metrics on the loser. |
| MergePairs.MergePair | scripts/reown_cross_tenant_tracks.py:1203-1283 | It reaches the merge service if and only if the pair is still valid, nothing would cascade and the handed-over table is unique, which every unrefused pair meets. Then each edge tells which mapping was superseded by which, the owner's other mappings and metrics on the loser are the user's, nothing else changed and the counts are exact; any other outcome rolls everything back. |
| Cleanup.NoCandidateIsLeft | scripts/cleanup_mistenanted_spotify_tracks.py:535-583 | Every candidate track and every mapping on one is gone. |
| Cleanup.LedgerIsKept | scripts/cleanup_mistenanted_spotify_tracks.py:71-75 | The raw ledger survives whole: each connector play is there, with its pointer unchanged or nulled. |
| Cleanup.OthersKeepTheirPlays | scripts/cleanup_mistenanted_spotify_tracks.py:674-688 | No other tenant's track play, nor its sources, is touched. |
| Cleanup.BystandersAreKept | scripts/cleanup_mistenanted_spotify_tracks.py:77-84 | Events, other tracks and what names no candidate stay as they are. |
| Cleanup.RepairIsLegal | scripts/cleanup_mistenanted_spotify_tracks.py:62-69 | No reference dangles afterwards, superseding mappings outside the set included. |
| Cleanup.OthersUntouchedIff | scripts/cleanup_mistenanted_spotify_tracks.py:674-696 | When the guards pass, nothing of another tenant is touched, apart from mappings deleted on purpose, if and only if no dependent of another tenant names a candidate and no source row of another tenant documents the user's play on one. |
| Cleanup.OthersUntouchedIffNoDependent | scripts/cleanup_mistenanted_spotify_tracks.py:674-696 | Where source rows carry their play's tenant, the dependents are the whole condition. |
| Cleanup.OthersLikesAreTaken | scripts/cleanup_mistenanted_spotify_tracks.py:674-696 | A database that passes the guards and loses another tenant's like. |
| Cleanup.ResetResolutions | scripts/cleanup_mistenanted_spotify_tracks.py:304-329 | Phase 2 nulls exactly the user's pointers at the candidates, batch by batch. |
| Cleanup.DeleteMappings | scripts/cleanup_mistenanted_spotify_tracks.py:569-573 | A batch is deleted row by row, in any order, and RESTRICT never finds a referrer. |
| Cleanup.VictimsAddUp | scripts/cleanup_mistenanted_spotify_tracks.py:574-582 | Cascading track by track removes what one cascade over all of them would. |
| Cleanup.DeleteMappingsAndTracks | scripts/cleanup_mistenanted_spotify_tracks.py:535-583 | Given no outside referrer the transaction cannot fail, removes exactly the mappings and what cascades from the tracks, and reports both counts. |
| Cleanup.VictimsAreWhatCascades | scripts/cleanup_mistenanted_spotify_tracks.py:574-582 | What a DELETE of tracks takes is exactly the tracks and every row that names a taken row by a cascading key. |
| Cleanup.DecisionIsByRow | scripts/cleanup_mistenanted_spotify_tracks.py:586-688 | The decision on the collected sets is the one the rows call for, one by one: candidates, supersession from outside, events, others' plays. |
| Cleanup.RepairIsByRow | scripts/cleanup_mistenanted_spotify_tracks.py:535-583 | What becomes of each single row in a repair, by its own columns. |
| Cleanup.Run | scripts/cleanup_mistenanted_spotify_tracks.py:586-711 | For every database: which of the five answers is given, told by rows, and what becomes of every row. Tracks of other tenants or from before the window stay as they are; after a repair no "default" track inside the window is left; a refusal after phase 2 leaves only the user's pointers reset. |
| VacuityHelpers.SoundnessIsUpwardClosed | scripts/check_test_vacuity.py:515-531 | Adding checks never makes a sound set vacuous. |
| VacuityHelpers.ClassifyByMembership | scripts/check_test_vacuity.py:515-531 | A set is sound if and only if it holds a real check, a check of call arguments or a timing bound, or one of frozen and enum pin together with one of existence and mock; and which shape each other set has. |
| VacuityHelpers.NotMonotoneUnderInclusion | scripts/check_test_vacuity.py:870-876 | A helper's contribution is not monotone under plain inclusion. |
| VacuityHelpers.ContributionIsMonotone | scripts/check_test_vacuity.py:870-876 | It is monotone in the order with {REAL} on top. |
| VacuityHelpers.AddIterates | scripts/check_test_vacuity.py:899-905 | Visiting any callee keeps the iteration below every solution and keeps a reason for everything found. |
| VacuityHelpers.ClosedIsLeast | scripts/check_test_vacuity.py:895-905 | When a pass changes nothing, the map is the least solution of the helper equations. |
| VacuityHelpers.LeastSolutionIsUnique | scripts/check_test_vacuity.py:879-909 | There is at most one least solution. |
| VacuityHelpers.AssertingHelpers | scripts/check_test_vacuity.py:879-909 | For every order of names and callees the loop ends and returns the least solution of the equations, in which sound is judged check by check, plus a real check for each checkless function with a helper's name. |
| VacuityWalks.WalkShallow | scripts/check_test_vacuity.py:221-233 | The explicit stack lists what the recursive pre-order walk lists, in the same order. |
| VacuityWalks.ListedIffReached | scripts/check_test_vacuity.py:221-233 | A node is listed exactly when a way down to it enters no nested function, lambda or class. |
| VacuityWalks.ClassChain | scripts/check_test_vacuity.py:948-964 | On every base-class graph, circles included, the queue empties and the chain is what breadth-first search finds, in the order in which base names are met, each entry but the first under that name. |
| VacuityWalks.ChainIsReachable | scripts/check_test_vacuity.py:948-964 | Such a chain lists exactly the local classes reachable along bases, without repeats. |
| VacuityWalks.NearestFirst | scripts/check_test_vacuity.py:951 | A class is never listed before one that fewer base steps reach. |
| VacuityWalks.ListKeepsMeeting | scripts/check_test_vacuity.py:955-963 | Listing a class and queueing its bases keeps every class at the place where it is first named. |
| VacuityWalks.ChainIsDetermined | scripts/check_test_vacuity.py:948-964 | The order is fixed: classes come where their base names are first met, definition by definition, and only one chain without repeats does that. |
| Telemetry.EverythingIsToldOnce | src/config/telemetry.py:118-186 | Conservation: over any run of nested spans, scopes, phases and exceptions, statements and API calls, their number and their nanoseconds, and the time of each phase are told to exactly one probe. |
| Telemetry.OutermostScopeWins | src/config/telemetry.py:146-172 | Inside a named operation every statement, those of inner spans included, is credited to it however scopes nest. |
| Telemetry.ScopeTakesTheCredit | src/config/telemetry.py:146-160 | A scope met outside any other takes the credit for its whole body. |
| Telemetry.AccountsBalance | src/config/telemetry.py:163-172 | Per-operation counts and times always add up to a probe's totals, one entry for each operation and none empty. |
| Telemetry.AccountReportsTape | src/config/telemetry.py:132-186 | A probe reports exactly the records it was told, in total and for each operation and phase. |
| Telemetry.Context.MeasureChunk | src/config/telemetry.py:118-129 | The inner span gets a balanced account of its own; the outer probe, its wall time and the ambient operation are as before, on return and on exception. |
| Telemetry.Context.PhaseOf | src/config/telemetry.py:132-143 | A phase adds its wall time to the ambient probe after whatever its body recorded. |
| Telemetry.Context.OperationScope | src/config/telemetry.py:146-160 | The outer operation wins, and the ambient one is put back. |
| Telemetry.Context.Run | src/config/telemetry.py:118-186 | A whole script leaves the ambient probe told exactly what the script means, on both ways out. |
| Telemetry.TopOperationsKeepsTheCount | src/config/telemetry.py:92-106 | The summary keeps the number of statements if and only if it does not overwrite a listed operation that is itself named "other". |
| Telemetry.OverwritingLosesCounts | src/config/telemetry.py:92-106 | An operation named "other" on top of a cheaper one costs the summary a statement. |
| Telemetry.TopOperationsKeepsTheTime | src/config/telemetry.py:92-106 | Its total time is off by at most half a millisecond for each line, of which there are at most limit + 1. |
| Telemetry.TopOperationsAreTheCostliest | src/config/telemetry.py:92-98 | Ranking is a permutation, and nothing folded away took longer than a listed operation. |
| Telemetry.TopOperationsLineByLine | src/config/telemetry.py:92-106 | The first `limit` operations have a line each with their own count and their own milliseconds, off by half a millisecond at most, and one line named other has those of all the rest; only a listed operation of that name gives way. |
| Telemetry.RankingIsStable | src/config/telemetry.py:92-98 | Equally costly operations keep the order in which they were first met. |

## Left out

- PurgeRun.Connection.Run: connections, the read-only transaction, visibility checks, JSON and file writing are not modelled; the residue list, the liveness answer and the request are parameters, and by-value references and the supersession summary are reported only by the script.
- PurgeRun.Connection.Execute: a NOT NULL column under SET NULL is not modelled; the model nulls it where PostgreSQL would fail.
- PurgeAttributable.Attribution.IsAttributable: exact on acyclic graphs only, because the memo depends on the path on cyclic ones; the ownership theorems hold for any answer it gives.
- PurgeClosure.InDeleteSetIsClosure: assumes single-column keys and no self-referencing CASCADE, which `load_schema` refuses.
- LastfmFold.Upgrade: assumes the constraints hold at the start, that no stored identifier has the temporary form, and that a mapping's connector name agrees with its connector row; the row-level-security brackets are left out. Groups and losers are taken in any order, which covers the script's.
- FoldPrimaries.ReassertPrimaries: the branch that demotes surplus primaries is not reached, since the unique index admits none.
- FoldRenames.TmpIsNoKey: the normalised key is an arbitrary function of artist and title that joins its parts with `::`; what `strip().lower()` does to Unicode is not modelled.
- LastfmFold.AssignOne: the occupant's own `folded_from` is dropped when the survivor has one and the occupant's identifier is never recorded, as in the code; what is recorded of the occupant is stated as the code computes it.
- FoldGroups.GroupMetaKeepsProvenance: metadata is a map of keys to values; JSON encoding and nested values are left out.
- DenormRepair.Catalog.PrePass: the row-level-security brackets and the schema steps after the pre-pass are left out; it assumes both unique indexes hold at the start.
- BatchedCollapse.KeyedTable.CollapseDuplicates: per-batch commits and row-level security are left out, and the key columns are one value.
- Reown.Apply: the population query, the tenant filter, the straddling-chain warning and the printed plan are left out; the plan is any grouping of unrefused tracks by owner.
- Reown.RefusalsAreExact: the normalization-equal refusal stands for no constraint and is not part of the equivalence.
- MergePairs.MergePair: stops where the merge service is called; that service, the identity test, and the refusals about plays, likes, preferences, playlists and tags are not part of this model. Pairs after the first run on refusals read before the first merge, and the recheck does not compare the loser's owner with the planned one, so a pair whose loser changed hands is carried on for the planned owner's rows, as in the script.
- Cleanup.Run: the dry run, the sizing report and the window re-check of rows the query already filtered are left out; all dependents that only cascade are one kind of row.
- Telemetry.Context.Run: concurrent tasks sharing a probe and clock behaviour are left out; clock readings are part of the script. The division by a million is exact here, and rounding is half to even as in Python.
- VacuityHelpers.AssertingHelpers: which checks and callees a function body has is a parameter; syntax pattern matching, fingerprints and git calls are left out.
- The baseline files and the ratchet of the vacuity checker: one set difference for each code, easy members only.
- `_factories` of the vacuity checker: its answer depends on definition order by design.
- Pagination, schema-only migrations, audit and census scripts, exporters, web configuration and logging: plumbing.

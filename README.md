# Referral network front end — a Dafny model

The system is the browser side of a multi-level referral network kept in a
realtime database. Users register, optionally with another user's referral
code, and the referrer gets a `userReferrals/<referrer>/<newUser>` edge.
Points are awarded by administrators. Ranks 0..5 climb by points (rank 0 to
1) or by how many team members already hold the rank (ranks 1..4). The
management page lists the whole network below the signed-in user as a
filterable, sortable, paged table. The administrator panel awards points,
grants the admin flag and filters the user list. The dashboard shows the
five newest direct referrals.

The model has eight modules, one file each:

- `Store` (`store.dfy`): the records (`User`, `Edge`, `PointsEntry`, ...). It also holds the
  class `Database`, one map per top-level path. Every write goes through one
  of its methods and is appended to a ghost log, so contracts can state the
  order in which an operation writes.
- `TeamWalk` (`team_walk.dfy`): the depth-bounded pre-order walk shared by
  `loadTeamMembers` and `loadAllNetworkMembers`. It is a specification
  (`Walk`/`Visit`/`Found`) plus the imperative method proved against it.
- `Ranks` (`ranks.dfy`): the team requirement, the one-step promotion rule,
  `checkRankPromotion`, and the points award shared by the management page
  and the admin panel.
- `ManagementTable` (`management_table.dfy`): the filter, the comparator and
  the in-place sort, paging, the statistics, and the `Management` object with
  its fields.
- `App` (`app.js`'s rules, `app.dfy`): the referral code, rank titles, the
  registration record, the referral edge and the referrer's count.
- `Admin` (`admin.dfy`): `adminAddPoints`, `makeUserAdmin` and `filterUsers`.
- `Dashboard` (`dashboard.dfy`): the recent-referrals selection.
- `Strings` (`strings.dfy`): `toLowerCase`, `includes` and `<` on strings.

The depth bound follows the code, not the "5 levels" that the `maxLevel` of 5 (management.js:94, management.js:487) suggests.
`loadTeamMembers(root, teamMembers, 0, 5)` stops only when `currentLevel > maxLevel`.
The call at level 5 therefore still appends its children at level 6.
`TeamWalk.NetworkLevels` bounds levels by 1..6, and
`TeamWalk.ChainReachesLevelSix` exhibits a member at level 6.

## Model

| member | source | states |
|---|---|---|
| TeamWalk.LoadTeamMembers | management.js:503-537 | appends to the accumulator exactly the pre-order walk `Walk(users, userReferrals, id, currentLevel, maxLevel)`, and leaves it untouched when `currentLevel > maxLevel` |
| TeamWalk.WalkLevels | management.js:523-530 | every member collected from level `c` has a level in `c+1 .. maxLevel+1` |
| TeamWalk.NetworkLevels | management.js:487 | a `(root, 0, 5)` walk yields levels 1..6 only |
| TeamWalk.ChainReachesLevelSix | management.js:503-537 | on a chain u0 → … → u6 the `(u0, 0, 5)` walk collects six members, the last being u6 at level 6 |
| TeamWalk.CycleRevisitsRoot | management.js:503-537 | on a two-user cycle the walk still terminates, by depth, and collects the root itself at level 2 |
| TeamWalk.WalkRecorded | management.js:516-530 | every collected member has a user record, carries that record, and is listed under some referrer |
| TeamWalk.OrphansSkipped | management.js:519 | a referred id with no user record is never collected |
| TeamWalk.WalkIgnoresOrphanList | management.js:519-533 | the referral list of an id with no user record never influences the walk, so its descendants are not visited through it |
| TeamWalk.RootNotInTeam | management.js:503-537 | when no referrer lists the root, the root is never collected |
| TeamWalk.DirectMembers | management.js:512-530 | the level-`c+1` members are exactly the root's recorded children, in key order |
| Ranks.Qualified | management.js:493-495 | the team members with `(rank \|\| 0) >= requiredRank`, no more and no fewer |
| Ranks.QualifiedCounts | management.js:493-497 | every occurrence of a qualifying member is kept and every other one dropped, so a member the walk lists twice counts twice towards the quorum |
| Ranks.QualifiedAppend | management.js:493-495 | the filter distributes over concatenation of team lists |
| Ranks.QualifiedShrinks | management.js:493-495 | a higher required rank qualifies no more members |
| Ranks.CheckTeamRankRequirements | management.js:483-501 | true exactly when at least 3 members of the `(user, 0, 5)` walk have rank at least `targetRank - 1` |
| Ranks.NextRank | management.js:447-459 | the rank moves by at most one, and up exactly when rank 0 has ≥ 100 points or rank 1..4 has a qualifying team |
| Ranks.NextRankOnLadder | management.js:447-459 | ranks 0..5 stay within 0..5 and rank 5 never moves |
| Ranks.NextRankMonotoneInPoints | management.js:450-451 | more points never give a lower next rank |
| Ranks.Promotion | management.js:442-462 | a step exists only for a recorded user, from its current rank to that rank plus one |
| Ranks.PromotionTable | management.js:447-459 | rank 0 steps iff points ≥ 100; ranks 1..4 step iff the team requirement for the next rank holds; other ranks never step |
| Ranks.TwoQualifiedAreNotEnough | management.js:496-497 | two qualified team members never promote a rank-2 user |
| Ranks.CheckRankPromotion | management.js:442-481 | decides `Promotion` on the store it reads; writes the rank and then the `{fromRank, toRank}` entry only when the rank changes; nothing else |
| Ranks.Award | management.js:401-426 | a missing user aborts with no write; otherwise total = `(points \|\| 0) + delta` is written, then the entry, and promotion is decided on the store holding the new total; the new users map, points history (one entry appended), promotion history (one entry appended only on a promotion) and write log are all stated |
| Ranks.AddPointsToUser | management.js:388-440 | a non-admin caller or an invalid form is refused with no write; otherwise the award with an entry holding the delta and the actor, with the same new users map, points history, promotion history and write log as `Award` |
| ManagementTable.Matches | management.js:228-245 | cleared inputs keep every member; a kept member lies within a set date range and on a set level |
| ManagementTable.MatchesIgnoresSearchCase | management.js:226 | the search text's case does not matter |
| ManagementTable.ApplyFilters | management.js:221-248 | keeps exactly the members matching every set filter, never more than given |
| ManagementTable.NoFiltersKeepAll | management.js:210-219 | with all inputs cleared the filter keeps every member, in order |
| ManagementTable.ApplyFiltersAppend | management.js:228-247 | filtering distributes over concatenation |
| ManagementTable.ApplyFiltersIdempotent | management.js:228-247 | filtering twice with the same inputs equals filtering once |
| ManagementTable.Compare | management.js:250-269 | the comparator is negative exactly when the first member comes first in the chosen direction |
| ManagementTable.CompareAntisymmetric | management.js:259-267 | swapping the arguments negates the comparator |
| ManagementTable.CompareTransitive | management.js:259-267 | "not after" is transitive, so the comparator is a consistent order |
| ManagementTable.NewestFirst | management.js:9-12 | sorted by the initial join-date-descending state, join dates never increase |
| ManagementTable.FewestPointsFirst | management.js:250-269 | sorted by points ascending, points never decrease |
| ManagementTable.SortMembers | management.js:250-270 | the array ends sorted by the comparator and is a permutation of its old contents |
| ManagementTable.InsertAt | management.js:250-270 | one insertion step extends the sorted prefix by one, as a permutation |
| ManagementTable.Toggled | management.js:272-281 | the same field flips direction; another field becomes current, ascending |
| ManagementTable.ToggleTwiceRestores | management.js:275-276 | clicking the current field twice restores the sort state |
| ManagementTable.NewFieldTwiceDescends | management.js:275-281 | clicking a new field twice sorts by it descending |
| ManagementTable.TotalPages | management.js:159 | `ceil(n / pageSize)`: the smallest page count that holds all `n` rows |
| ManagementTable.PageSlice | management.js:162-164 | the page holds the members from `(page-1)*size`, at most `size`, clamped to the list |
| ManagementTable.PagesCoverAll | management.js:159-164 | pages 1..`totalPages` laid end to end are exactly the sorted list |
| ManagementTable.PageNonEmptyIffInRange | management.js:159-164 | a page shows someone iff its number is at most `totalPages` |
| ManagementTable.PageRows | management.js:166-178 | rows are numbered consecutively from `startIndex + 1`, each row shows the member at that position and its referral count |
| ManagementTable.StatsOf | management.js:328-331 | the total is the member count and the active count never exceeds it |
| ManagementTable.ActiveCountIsStatusFilter | management.js:330 | the active count equals the number of members the status filter "active" keeps |
| ManagementTable.StatsAppend | management.js:329-331 | the statistics of two parts of the network add up |
| ManagementTable.PointsTotalBounds | management.js:331 | with no negative balances the points total is non-negative and bounds each member's points |
| ManagementTable.Management.constructor | management.js:6-16 | empty lists, join date descending, page 1, page size 10 |
| ManagementTable.Management.LoadAllNetworkMembers | management.js:107-141 | appends the walk from `(userId, currentLevel, maxLevel)` to `allMembers` |
| ManagementTable.Management.Render | management.js:143-192 | `Rendered`: no members gives the empty notice and `filteredMembers` unchanged; otherwise `filteredMembers` becomes the filtered members sorted in place, and the table shows the current page's rows and the page count |
| ManagementTable.Management.UpdateStats | management.js:328-342 | the statistics of `allMembers` |
| ManagementTable.Management.LoadManagementData | management.js:88-105 | without a user nothing changes; otherwise `allMembers` is the `(uid, 0, 5)` walk, the table is rendered (`Rendered`: with no members the empty notice and `filteredMembers` kept, otherwise the filtered members sorted and the current page shown), then the statistics |
| ManagementTable.Management.ApplyFiltersAndRender | management.js:205-219 | back to page 1, then `Rendered` for the current inputs |
| ManagementTable.Management.ToggleSortOrder | management.js:272-295 | the sort state becomes `Toggled(old, field)`, then `Rendered`: the filtered members re-sorted by it as a permutation, and the current page shown |
| ManagementTable.Management.GoToPrevPage | management.js:297-302 | one page back and `Rendered`, never below page 1, and no change on page 1 |
| ManagementTable.Management.GoToNextPage | management.js:304-310 | one page on and `Rendered` only while below `ceil(filtered / pageSize)`, never past it; otherwise no change |
| ManagementTable.Management.ChangePageSize | management.js:312-316 | the new size, page 1, and `Rendered` |
| Store.ReferralsCount | management.js:194-203 | the number of keys under `userReferrals/<id>`, 0 exactly when there are none |
| Store.CountIsDistinctKeys | app.js:252-264 | with distinct keys the count is the number of different referred users |
| Store.PutChildShape | app.js:172-178 | setting a child keeps keys distinct, stores the new value, and adds one key exactly when it was new |
| Store.Database.SetPointsOf | management.js:410-412 | only the points of that record change, and the write is logged |
| Store.Database.SetRankOf | management.js:463-465 | only the rank of that record changes, and the write is logged |
| Store.Database.SetReferralsCountOf | app.js:297-299 | only the referrals count of that record changes, and the write is logged |
| Store.Database.SetAdminOf | admin.js:131-133 | only the admin flag of that record changes, and the write is logged |
| Store.Database.PutUserRecord | app.js:134-144 | the record under the id is replaced, and the write is logged |
| Store.Database.PutReferralCode | app.js:147 | the code index maps the code to the owner, and the write is logged |
| Store.Database.PutReferralEdge | app.js:172-178 | the referrer's list takes the child, keys stay distinct, and the write is logged |
| Store.Database.PushPointsEntry | management.js:414-423 | the entry is appended to the user's points history, and the write is logged |
| Store.Database.PushPromotionEntry | management.js:467-474 | the entry is appended to the user's promotion history, and the write is logged |
| Strings.ToLower | management.js:226 | same length, each ASCII capital lowered, everything else kept |
| Strings.ToLowerIdempotent | admin.js:99-101 | lower-casing twice equals lower-casing once |
| Strings.ContainsIffOccurs | management.js:241-242 | `includes` holds exactly when the text occurs at some offset |
| Strings.ContainsEmpty | management.js:240 | every string includes the empty string |
| Strings.ContainsSelf | management.js:241-242 | every string includes itself |
| Strings.MissingCharNotContained | admin.js:101 | a string lacking the first character of the search text does not include it |
| Strings.LessIrreflexive | management.js:261 | no string is `<` itself |
| Strings.LessTransitive | management.js:261 | `<` on strings is transitive |
| Strings.LessTotal | management.js:261-265 | two strings are equal or one is `<` the other |
| App.CodeFrom | app.js:266-273 | one alphabet character per draw, in draw order |
| App.GenerateReferralCode | app.js:266-273 | the loop yields an 8-character code over `A–Z0–9`, the one the draws spell |
| App.DrawsRoundTrip | app.js:270 | reading a generated code back gives the draws that produced it |
| App.EveryCodeIsDrawn | app.js:266-273 | every 8-character `A–Z0–9` code is generated by some draws |
| App.DistinctDrawsDistinctCodes | app.js:267-271 | different draws give different codes |
| App.DistinctCharacters | app.js:267 | the 36 alphabet characters are pairwise different |
| App.RankTitle | app.js:376-387 | the beginner title exactly for ranks outside 1..5 |
| App.RankTitlesDistinct | app.js:377-384 | ranks 0..5 have six different titles |
| App.NewUserRecord | app.js:134-144 | the record carries the form's name and email, the new code, and the referral code typed, or none |
| App.NewUserStartsAtBottom | app.js:134-144 | a new user has 0 points, rank 0, the beginner title, is active and not admin, and is promoted by an award iff it reaches 100 points |
| App.Referrer | app.js:169-170 | a code resolves exactly when the index holds a non-empty id for it |
| App.ReferralCountAfterEdge | app.js:172-182 | the referrer's count rises by one unless the new user was already listed, the edge is stored, and other referrers are untouched |
| App.UpdateReferrerStats | app.js:289-305 | the referrer's `referralsCount` becomes its number of referral keys |
| App.ProcessReferral | app.js:166-187 | an unresolved code writes nothing; otherwise the edge with level 1 and status active, then the referrer's count |
| App.Register | app.js:111-164 | a missing name, email or password writes nothing; otherwise the record, then the code index, then the referral; the code maps to the new user and the user starts with 0 points and rank 0 |
| Admin.AdminAddPoints | admin.js:159-210 | an invalid form is refused with no write; otherwise the award with an entry marked as an admin action: the stored total (and rank on a promotion), the points history with the entry appended, the promotion history and the write log |
| Admin.MakeUserAdmin | admin.js:121-142 | an empty id is refused with no write; otherwise only that record's admin flag changes, to true, and an id with no record leaves the users map as it was |
| Admin.RowMatches | admin.js:99-102 | a row matches exactly when the lower-cased search text occurs at some position of the lower-cased name or email |
| Admin.FilterUsers | admin.js:94-104 | the loop shows each row from row 1 on iff its name or email includes the search text, and leaves row 0's display as it was |
| Admin.FirstRowNeverFiltered | admin.js:98 | a first row that does not match the search stays shown |
| Admin.FilterAllUsers | admin.js:98-103 | every row, the first included, is shown iff its name or email includes the search text |
| Admin.EmptySearchMatchesAll | admin.js:101 | an empty search shows every row |
| Admin.SearchIgnoresCase | admin.js:101 | the search text's case does not matter |
| Dashboard.Insert | dashboard.js:52 | inserting keeps newest-first order and adds exactly one entry |
| Dashboard.SortNewest | dashboard.js:51-52 | the referrals newest first, as a permutation |
| Dashboard.Take | dashboard.js:53 | the first `min(5, n)` entries |
| Dashboard.RecentReferrals | dashboard.js:34-68 | nothing without a signed-in user; otherwise the empty state or one to five rows, newest first |
| Dashboard.NoSnapshotNoRows | dashboard.js:42-45 | the empty state is shown exactly when there is no referral snapshot |
| Dashboard.RecentSelection | dashboard.js:51-53 | `min(5, n)` rows, newest first, drawn from the snapshot, none older than any referral left out |
| Dashboard.SortKeepsDistinct | dashboard.js:51-52 | the sort keeps distinct keys distinct |
| Dashboard.RecentRowsDistinct | dashboard.js:51-53 | every shown row is one of the user's referrals and none is shown twice |

## Left out

- network.js is not part of this model. Its traversal fires unawaited callbacks into shared state.
- Authentication is not modelled: sign-in, account creation and sign-out. `Register` takes the id the account service returned.
- Live subscriptions, `setInterval` polling and the order of asynchronous callbacks are not modelled. Reads happen at the point where the code awaits them.
- Rendering, alerts, modals, event wiring, share buttons and redirects are not modelled. The table body is modelled as the `TableView` value.
- CSV export is not modelled: it is a plain join feeding a download.
- `Math.random` is not modelled. Its eight draws are a parameter, each in 0..35.
- The clock is not modelled. It is the integer `now`, and join dates and timestamps are integers. Date parsing and locale formatting are out.
- Store failures are not modelled. A rejected write or read, swallowed by a `catch`, is assumed not to happen.
- `update` on a missing user id creates a partial record in the store. The model logs the write and changes no record.
- The store's key ordering is assumed to append new keys after existing ones. Firebase orders keys lexicographically.
- `push` id generation is not modelled. History lists are append-only sequences.
- The points sort compares `points || 0`. The source compares `undefined` for a record without points, which orders it as equal to everything.
- The edit form (app.js:478-493) stores points and rank as strings. That would break the `=== 0` and `+ 1` rank arithmetic. Ranks and points are integers here.
- `toLowerCase` lowers only ASCII letters. Strings are sequences of characters, not UTF-16 code units.
- Reads are not recorded in the write log.
- The reload after an award is not modelled: `loadManagementData` / `loadAllUsers`.
- `app.makeUserAdmin` (app.js:435-450) is not modelled. It is a second copy of the admin grant guarded by the caller's admin flag.
- `adminAddPoints` reaches `checkRankPromotion` through the page-global `management`. The model calls `CheckRankPromotion` directly.
- A referral-code collision is not modelled beyond what the source does. A new code equal to an existing one silently overwrites the index entry (`App.Register` states the overwrite).
- ManagementTable.Management.ChangePageSize: requires a size of at least 1. The select offers fixed sizes, and `parseInt` of anything else is not modelled.
- Admin.AdminAddPoints: requires an admin session, because the panel only wires the form after its administrator check.
- Ranks.AddPointsToUser: the management page's history entry has no `isAdminAction` field. It is modelled as `false`.
- ManagementTable.SortMembers: states sortedness and permutation but not stability, which the JavaScript sort also provides.
- Dashboard.SortNewest: states order and permutation but not stability.

## Findings

| source | as written | input that shows it | evidently intended | confidence | as-written member | corrected member |
|---|---|---|---|---|---|---|
| admin.js:98 | `filterUsers` starts its loop at row 1, as if row 0 were a header. `renderUsersTable` (admin.js:62-91) empties the element and inserts one row per user, so row 0 is the first user. | one user row ("Ali", "ali@example.com") and search "zz": the row stays shown | every user row is filtered, starting at row 0 | high; not executed | Admin.FilterUsers, Admin.FirstRowNeverFiltered | Admin.FilterAllUsers |

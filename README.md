# EcoCiudad, modelled in Dafny

EcoCiudad is a municipal environmental-reporting app. Citizens file geolocated
reports (`pendiente` at first). Administrators move reports through
`en_proceso`, `resuelto` and `rechazado`, and every comment is kept in an audit
trail. Citizens earn points for reports and for reading educational content,
and they spend points on rewards. The app is a set of React views over a hosted
backend. This project models the views' event handlers and read projections
against an in-memory store, and proves what they do.

Layout, one module per file:

- `types.dfy` (`Types`): the table records and their enumerations. Each
  enumeration has its stored literal and a parser from that literal.
- `query.dfy` (`Query`): the query shapes the views use. `eq` filters become
  `Filter`, `order(...)` becomes an insertion sort (`SortDesc`, `SortAsc`),
  and there are `limit` and `maybeSingle`. Their general lemmas are here too.
- `access.dfy` (`Access`): the administrator gate. Four views repeat the same
  expression; here it is defined once and every view uses it.
- `store.dfy` (`Store`): the store as a value (`Tables`), its single writes
  (`With...`), its invariant `Valid`, and the points ledger (`Credits`,
  `Drift`: a balance minus the credits of its activity rows plus the prices of
  its redemptions). It also holds the store as an object (`Backend`), whose methods
  perform those writes in place. Every accepted write takes the clock as the
  new row's id and time, then advances the clock.
- One module per core view: `education.dfy`, `report_form.dfy`,
  `report_detail.dfy`, `rewards.dfy`, `reward_card.dfy`, `reports_view.dfy`,
  `dashboard.dfy`, `profile_view.dfy` and `navbar.dfy`.
- `session.dfy` (`Session`): any sequence of the writing handlers. The store
  invariant, which includes that no balance is negative, holds after every
  sequence.

Each handler comes in two forms:

- A function on `Tables`. The lemmas about the handler are stated on it.
- A method of the view's class. It modifies the `Backend` and the view's own
  fields. Its `ensures` ties the new store to the function, and it keeps
  `Valid`.

Where the gateway's answer changes what the code does, that answer is an input
(`accepted`, `ok`). Some writes whose answer the code ignores also get a flag
of their own, because a failure there splits one logical change in two. They
are the activity insert and the increment after a new report
(`activityAccepted`, `creditAccepted`), and the report write before an audit
row (`statusAccepted`). The code goes on in the same way either way, and the
lemmas say what each combination leaves behind. The writes of the education
page are modelled as succeeding (see Left out).

Four behaviours of the code are worth noting:

- **handleAddUpdate has no ownership check.** Only the hidden form keeps
  citizens who are not the author from posting, and there is no authorization
  error.
- **handleRedeem has no inactive-reward error.** Only active rewards are
  listed, but the handler does not check `is_active`.
- **A first view credits nothing to the balance.** It records the +5 activity
  but never adds it to the balance (see Findings).
- **The balance read before a redemption may be stale.** The debit is a
  read-then-write of that balance, so a stale read lets the guard pass twice
  (`RewardsView.StaleProfileRedeemsTwice`).

## Model

| member | source | states |
|---|---|---|
| Types.ParseRole | src/lib/supabase.ts:12 | a stored role is exactly one of citizen, municipal_admin, super_admin; any other string is rejected |
| Types.ParseCategory | src/lib/supabase.ts:23 | a report category is exactly one of the four literals |
| Types.ParseStatus | src/lib/supabase.ts:24 | a report status is one of the four literals; report_updates.status uses the same set (line 40) |
| Types.ParsePriority | src/lib/supabase.ts:29 | a priority is one of baja, media, alta |
| Types.ParseRewardCategory | src/lib/supabase.ts:50 | a reward category is one of descuento, reconocimiento, beneficio |
| Types.ParseRedemptionStatus | src/lib/supabase.ts:62 | a redemption status is one of pendiente, entregado, usado |
| Types.ParseActivityType | src/lib/supabase.ts:68 | an activity type is one of the four literals |
| Types.ParseContentCategory | src/lib/supabase.ts:78 | a content category is one of campana, consejo, actividad |
| Types.ParseInteractionType | src/lib/supabase.ts:91 | an interaction type is one of view, like, complete |
| Types.LiteralsRoundTrip | src/lib/supabase.ts:8-93 | every enumeration literal parses back to the value it came from |
| Access.IsOwner | src/components/Reports/ReportDetail.tsx:27 | a signed-in profile whose id is the report's author; its consequences are stated by `ReportDetail.VisibilityRules` |
| Access.IsAdmin | src/components/Layout/Navbar.tsx:12 | the gate holds exactly for a signed-in profile whose role is not citizen; the same gate is used for DashboardView.tsx:43, ProfileView.tsx:14 and ReportDetail.tsx:26 |
| Query.Filter | src/components/Reports/ReportsView.tsx:42 | `filter` keeps exactly the rows that pass, in their original order, and never more rows than it was given |
| Query.SortDesc | src/components/Reports/ReportsView.tsx:27-30 | `order(..., { ascending: false })` returns a permutation of the rows sorted by descending key |
| Query.SortAsc | src/components/Rewards/RewardsView.tsx:23 | `order(key)` returns a permutation of the rows sorted by ascending key |
| Query.Limit | src/components/Dashboard/DashboardView.tsx:62 | `limit(n)` returns the first min(n, length) rows, a sub-multiset of the input |
| Query.MaybeSingle | src/components/Education/EducationView.tsx:34-40 | `maybeSingle` returns a row exactly when one row matches, and that row is a match |
| Store.PriceOfListed | src/components/Rewards/RewardsView.tsx:30-34 | with reward ids as keys, a redemption's reward_id looks up the listed reward's own points_required |
| Store.DebitsAppend | src/components/Rewards/RewardsView.tsx:47-51 | a new redemption adds its reward's price to its user's debits and to no one else's |
| Store.CreditsAppend | src/components/Reports/ReportForm.tsx:87-92 | a new activity adds its points to its user's credits and to no one else's |
| Store.Backend.InsertReport | src/components/Reports/ReportForm.tsx:73-85 | an accepted insert appends the report row; a refused one reports an error and changes nothing |
| Store.Backend.UpdateReportStatus | src/components/Reports/ReportDetail.tsx:61-68 | the report's rows take the new status and time, and resolved_at only when asked |
| Store.Backend.InsertReportUpdate | src/components/Reports/ReportDetail.tsx:71-73 | an accepted insert appends the audit row; a refused one changes nothing |
| Store.Backend.InsertRedemption | src/components/Rewards/RewardsView.tsx:47-53 | an accepted insert appends the user_rewards row; a refused one changes nothing |
| Store.Backend.UpdatePoints | src/components/Rewards/RewardsView.tsx:58-63 | an accepted write overwrites the points of that profile only |
| Store.Backend.Increment | src/components/Reports/ReportForm.tsx:94-97 | the `increment` procedure adds x to the points of that profile only |
| Store.Backend.InsertActivity | src/components/Reports/ReportForm.tsx:87-92 | appends one activity row |
| Store.Backend.UpdateViews | src/components/Education/EducationView.tsx:49-52 | sets views on the rows of that content id only |
| Store.Backend.InsertInteraction | src/components/Education/EducationView.tsx:43-47 | appends one interaction row |
| Store.Backend.DeleteInteraction | src/components/Education/EducationView.tsx:75-78 | removes exactly the interaction rows with that id |
| Education.PublishedNewestFirst | src/components/Education/EducationView.tsx:19-23 | the listing holds exactly the published items, newest first, and is a permutation of them |
| Education.FilteredContents | src/components/Education/EducationView.tsx:102-105 | 'all' returns the list itself; a category returns exactly that category's items, as an order-preserving subsequence |
| Education.ViewContent | src/components/Education/EducationView.tsx:31-63 | handleViewContent on the store, as written; its effect is stated by the `FirstViewCredits` … `ViewContentPreservesValid` rows and by `StaleRecordLowersViews` |
| Education.FirstViewCredits | src/components/Education/EducationView.tsx:42-59 | a first view inserts exactly one view row, sets views to the passed record's views + 1, inserts one educacion activity worth 5, and changes no other table |
| Education.ViewIsNoOpIffViewed | src/components/Education/EducationView.tsx:34-42 | in a valid store a view writes nothing exactly when the user already has a view row |
| Education.ViewTwiceIsViewOnce | src/components/Education/EducationView.tsx:31-63 | viewing twice leaves the store as viewing once does: views +1 and one activity in total |
| Education.StaleRecordLowersViews | src/components/Education/EducationView.tsx:49-52 | the count written is the passed record's views + 1, so a record older than the table lowers the stored count |
| Education.TwoViewersFromOneRecordCountOnce | src/components/Education/EducationView.tsx:42-52 | two users opening the item from the same listed record both get a view row, but the stored count rises by one |
| Education.ViewContentPreservesValid | src/components/Education/EducationView.tsx:31-63 | a view keeps at most one view row and one like row per (user, content) pair |
| Education.ToggleLike | src/components/Education/EducationView.tsx:65-88 | handleLike on the store; its effect is stated by the `DeleteOnlyLike` … `LikeTouchesOnlyInteractions` rows |
| Education.DeleteOnlyLike | src/components/Education/EducationView.tsx:74-78 | deleting the only like row of a pair leaves that pair without likes |
| Education.LikeToggles | src/components/Education/EducationView.tsx:65-85 | in a valid store the pair is liked afterwards exactly when it was not liked before |
| Education.ToggleLikePreservesValid | src/components/Education/EducationView.tsx:65-85 | a like keeps at most one like row per pair |
| Education.LikeTwiceRestores | src/components/Education/EducationView.tsx:65-85 | two toggles restore the like state; from no like, they restore the interactions table exactly |
| Education.LikeTouchesOnlyInteractions | src/components/Education/EducationView.tsx:65-88 | a like changes no views, no activities, no balance and no other table |
| Education.LikeKeepsViews | src/components/Education/EducationView.tsx:65-85 | in a valid store a like leaves every user's view rows for every item as they were |
| Education.FirstViewLeavesBalanceBehind | src/components/Education/EducationView.tsx:54-59 | as written, a first view lowers balance minus recorded credits by 5 |
| Education.ViewContentCredited | src/components/Education/EducationView.tsx:42-61 | the corrected first view, which also calls `increment` by 5; see the two rows that follow |
| Education.ViewContentCreditedKeepsDrift | src/components/Education/EducationView.tsx:54-59 | with the credit applied, a first view pays exactly 5 and keeps the ledger balanced |
| Education.ViewContentCreditedPreservesValid | src/components/Education/EducationView.tsx:31-63 | the corrected view keeps the store valid |
| Education.Page.constructor | src/components/Education/EducationView.tsx:8-11 | no contents, loading, nothing open, filter 'all' |
| Education.Page.FetchContents | src/components/Education/EducationView.tsx:17-29 | the list becomes the published items newest first when the query succeeds; otherwise it is kept |
| Education.Page.HandleViewContent | src/components/Education/EducationView.tsx:31-63 | opens the item and performs the first-view writes; refetches only after a first view, and only then ends not loading |
| Education.Page.HandleLike | src/components/Education/EducationView.tsx:65-88 | flips the like state, keeps the store valid, then refetches and ends not loading |
| Education.Page.HandleViewContentCredited | src/components/Education/EducationView.tsx:42-61 | the corrected handler; it also calls `increment` by 5; its list and busy flag behave as in `HandleViewContent` |
| ReportForm.StoredAddress | src/components/Reports/ReportForm.tsx:81 | the empty address is stored as null; any other address is stored verbatim |
| ReportForm.SubmitError | src/components/Reports/ReportForm.tsx:64-67 | no location gives the location message; a refused insert gives a non-empty message (lines 101-102); success clears it |
| ReportForm.Submit | src/components/Reports/ReportForm.tsx:61-106 | handleSubmit on the store; its effect is stated by the four rows that follow |
| ReportForm.SubmitFailureWritesNothing | src/components/Reports/ReportForm.tsx:64-85 | without a location or with the insert refused, nothing is written: no report, no activity, no points |
| ReportForm.SubmitCreatesPendingReport | src/components/Reports/ReportForm.tsx:73-97 | the created report belongs to the user, is pendiente, and has the captured coordinates; when the activity insert takes effect, one reporte_valido activity worth 10 follows; when the increment takes effect, the balance rises by 10; other balances and tables stay the same |
| ReportForm.SubmitKeepsDrift | src/components/Reports/ReportForm.tsx:87-97 | when the two unchecked writes both take effect or both fail, no user's ledger drifts; when only one does, the author ends exactly 10 off, below with only the activity, above with only the credit |
| ReportForm.SubmitPreservesValid | src/components/Reports/ReportForm.tsx:61-106 | a submit keeps the store valid |
| ReportForm.Form.constructor | src/components/Reports/ReportForm.tsx:26-34 | empty fields, category basura, priority media, no location |
| ReportForm.Form.SubmitDisabled | src/components/Reports/ReportForm.tsx:249 | the submit button is enabled exactly when a location is captured and no submission is in progress |
| ReportForm.Form.CaptureLocation | src/components/Reports/ReportForm.tsx:36-59 | the browser's position is stored when reported; the unsupported and denied cases set their messages and keep the old location |
| ReportForm.Form.HandleSubmit | src/components/Reports/ReportForm.tsx:61-106 | the store follows `Submit`, with either of the two unchecked writes succeeding or not, and stays valid; created exactly with a location and an accepted insert, whatever those two writes did; the error message follows `SubmitError`; the form's own fields are not changed |
| ReportDetail.TrimStart | src/components/Reports/ReportDetail.tsx:47 | drops exactly the leading whitespace, a suffix that is empty or starts with a non-blank |
| ReportDetail.TrimEnd | src/components/Reports/ReportDetail.tsx:47 | drops exactly the trailing whitespace, a prefix that is empty or ends with a non-blank |
| ReportDetail.TrimEmptyIffBlank | src/components/Reports/ReportDetail.tsx:47 | `trim()` is empty exactly for all-whitespace comments |
| ReportDetail.ShowUpdateForm | src/components/Reports/ReportDetail.tsx:154 | shown to an administrator or the author; stated by `VisibilityRules` |
| ReportDetail.ShowStatusSelector | src/components/Reports/ReportDetail.tsx:156 | `isAdmin`; stated by `VisibilityRules` |
| ReportDetail.VisibilityRules | src/components/Reports/ReportDetail.tsx:154-156 | the form shows exactly for an administrator or the author; the status selector only for an administrator, and only inside the form |
| ReportDetail.SubmitDisabled | src/components/Reports/ReportDetail.tsx:182 | the button is enabled exactly when the comment is not blank and no submission is in progress |
| ReportDetail.ListUpdates | src/components/Reports/ReportDetail.tsx:33-38 | exactly this report's updates, newest first, as a permutation of them |
| ReportDetail.AddUpdate | src/components/Reports/ReportDetail.tsx:45-83 | handleAddUpdate on the store; its effect is stated by the rows from `BlankCommentIsNoOp` to `AddUpdatePreservesValid` |
| ReportDetail.BlankCommentIsNoOp | src/components/Reports/ReportDetail.tsx:47 | a whitespace-only comment writes nothing, whatever the status selector holds |
| ReportDetail.CitizenNeverChangesReport | src/components/Reports/ReportDetail.tsx:58 | a citizen's submission never writes the reports table |
| ReportDetail.StatusWrite | src/components/Reports/ReportDetail.tsx:58-68 | reports change exactly on an administrator's status change whose write takes effect: new status and updated_at; resolved_at is set only for resuelto and kept otherwise; other rows stay |
| ReportDetail.AuditRowCarriesStatusIffChanged | src/components/Reports/ReportDetail.tsx:52-71 | one audit row for the report and author, with the comment; it carries a status exactly when the status changed, whether or not the report write took effect |
| ReportDetail.ReportWrittenBeforeAudit | src/components/Reports/ReportDetail.tsx:61-71 | the audit row is later than the report's new updated_at |
| ReportDetail.RefusedAuditKeepsStatusChange | src/components/Reports/ReportDetail.tsx:61-73 | a refused audit insert after a status change leaves the new status with no audit row |
| ReportDetail.RefusedStatusWriteAuditClaimsChange | src/components/Reports/ReportDetail.tsx:58-71 | a failed report write followed by an accepted audit insert leaves the reports table unchanged while the new audit row names a status the report does not have |
| ReportDetail.PostedUpdateListedFirst | src/components/Reports/ReportDetail.tsx:71-76 | in a valid store, the refetched listing starts with the posted update |
| ReportDetail.AddUpdatePreservesValid | src/components/Reports/ReportDetail.tsx:45-83 | a submission keeps the store valid |
| ReportDetail.Panel.constructor | src/components/Reports/ReportDetail.tsx:21-24 | the status selector starts at the report's status and the comment is empty |
| ReportDetail.Panel.FetchUpdates | src/components/Reports/ReportDetail.tsx:33-43 | the listing is replaced by `ListUpdates` only when the query succeeds |
| ReportDetail.Panel.HandleAddUpdate | src/components/Reports/ReportDetail.tsx:45-83 | the store follows `AddUpdate`, with the report write succeeding or not; posted exactly for a non-blank comment with an accepted insert; then the comment is cleared and the listing is refetched |
| RewardCard.CanRedeem | src/components/Rewards/RewardCard.tsx:17 | `userPoints >= points_required`; stated by `ButtonDisabled` and `RewardsView.CardAgreesWithGuard` |
| RewardCard.ButtonDisabled | src/components/Rewards/RewardCard.tsx:43 | the button is disabled exactly when the points are below the price |
| RewardCard.ButtonLabel | src/components/Rewards/RewardCard.tsx:50 | 'Canjear' exactly when enabled, 'Puntos insuficientes' exactly when disabled |
| RewardCard.ShowsQuantity | src/components/Rewards/RewardCard.tsx:35 | the stock line shows exactly when a quantity is present |
| RewardsView.ActiveRewards | src/components/Rewards/RewardsView.tsx:23 | exactly the active rewards, ascending by points_required |
| RewardsView.ActivityHistory | src/components/Rewards/RewardsView.tsx:24-29 | the user's own activities only, each at most as often as stored, newest first, min(20, count) of them |
| RewardsView.HistoryKeepsNewest | src/components/Rewards/RewardsView.tsx:24-29 | a user's activity left out of the history is no newer than any listed one |
| RewardsView.Redemptions | src/components/Rewards/RewardsView.tsx:30-34 | exactly the user's redemptions, newest first, as a permutation of them |
| RewardsView.ShownPoints | src/components/Rewards/RewardsView.tsx:147 | the points field or 0: 0 without a profile, otherwise the profile's balance; the header at line 89 shows the same value |
| RewardsView.RedeemBlocked | src/components/Rewards/RewardsView.tsx:45 | the early return is taken for a missing profile, and for a signed-in user exactly when the balance shown is below the price |
| RewardsView.CardAgreesWithGuard | src/components/Rewards/RewardsView.tsx:45 | for a signed-in user the card's canRedeem (RewardCard.tsx:17, shown points line 147) is the exact negation of the early return |
| RewardsView.Redeem | src/components/Rewards/RewardsView.tsx:44-68 | handleRedeem on the store; its effect is stated by the rows from `RedeemFailureWritesNothing` to `RedeemPreservesValid` |
| RewardsView.Outcome | src/components/Rewards/RewardsView.tsx:45-66 | NotAllowed exactly when the early return is taken; Redeemed exactly when neither it nor either write fails |
| RewardsView.RedeemFailureWritesNothing | src/components/Rewards/RewardsView.tsx:45-56 | with no profile, too few points or a refused insert, nothing is written and the balance is untouched |
| RewardsView.RedeemDebits | src/components/Rewards/RewardsView.tsx:47-61 | one pendiente row for the (user, reward) pair; on success the points become the held points − price ≥ 0; only that profile's points field changes |
| RewardsView.RefreshedProfilePreventsDoubleSpend | src/components/Rewards/RewardsView.tsx:58-65 | after a redemption with a refreshed profile, a second one the balance cannot cover is blocked |
| RewardsView.StaleProfileRedeemsTwice | src/components/Rewards/RewardsView.tsx:45-61 | with a stale profile, two redemptions are stored but the balance is debited once |
| RewardsView.RedeemKeepsDrift | src/components/Rewards/RewardsView.tsx:44-61 | from a profile read fresh from the table, a redemption keeps every user's ledger balanced (balance = credits − prices redeemed); a refused debit leaves its user exactly the price above the ledger |
| RewardsView.StaleRedeemShiftsDrift | src/components/Rewards/RewardsView.tsx:45-61 | the stale double redemption leaves the user exactly the price above the ledger |
| RewardsView.RedeemRecordsNoActivity | src/components/Rewards/RewardsView.tsx:44-68 | a redemption writes no activity row |
| RewardsView.RedeemPreservesValid | src/components/Rewards/RewardsView.tsx:44-68 | a redemption keeps the store valid; in particular the debit never makes a balance negative, even from a stale profile, because the guard at line 45 covers the value written at line 59 |
| RewardsView.Page.constructor | src/components/Rewards/RewardsView.tsx:9-13 | empty lists, loading, available tab |
| RewardsView.Page.FetchData | src/components/Rewards/RewardsView.tsx:19-42 | each list is replaced by its query's result only when that query succeeds |
| RewardsView.Page.HandleRedeem | src/components/Rewards/RewardsView.tsx:44-68 | the store follows `Redeem`; the outcome names the branch taken; only a full success refetches the lists |
| ReportsView.ReportsNewestFirst | src/components/Reports/ReportsView.tsx:27-30 | all reports, newest first, as a permutation |
| ReportsView.ApplyFilters | src/components/Reports/ReportsView.tsx:38-50 | an order-preserving subsequence; 'all'/'all' returns the list itself; every result has the selected status and category; a report is in the result exactly when it passes both |
| ReportsView.ApplyFiltersIsOneFilter | src/components/Reports/ReportsView.tsx:41-47 | the two filter steps equal one filter by both selectors |
| ReportsView.ApplyFiltersIdempotent | src/components/Reports/ReportsView.tsx:38-50 | filtering the result again returns the same result |
| ReportsView.FilteredStaysNewestFirst | src/components/Reports/ReportsView.tsx:27-47 | the filtered list is still newest first |
| Dashboard.CountStatus | src/components/Dashboard/DashboardView.tsx:74-87 | a status count never exceeds the number of reports |
| Dashboard.CountCategory | src/components/Dashboard/DashboardView.tsx:72 | a category count never exceeds the number of reports |
| Dashboard.StatusCountsSumToTotal | src/components/Dashboard/DashboardView.tsx:71-88 | the four status counts add up to the number of reports |
| Dashboard.CategoryCountsSumToTotal | src/components/Dashboard/DashboardView.tsx:72 | the four category counts add up to the number of reports |
| Dashboard.CountStatusIsFilterLength | src/components/Dashboard/DashboardView.tsx:74-87 | the loop's count of a status is the length of the list filtered by it, as ProfileView.tsx:29-30 counts |
| Dashboard.CountCategoryIsFilterLength | src/components/Dashboard/DashboardView.tsx:72 | the loop's count of a category is the length of the list filtered by it, as ReportsView.tsx:45-47 filters |
| Dashboard.TalliedConsistent | src/components/Dashboard/DashboardView.tsx:90-96 | in tallied stats the status figures and the category bars each add up to total; each bar is between 1 and total; zero reports give no bars (lines 234-244) |
| Dashboard.Tally | src/components/Dashboard/DashboardView.tsx:65-88 | the loop's four counters are the status counts; the dictionary has a key for exactly the categories present, each with its count |
| Dashboard.RecentReports | src/components/Dashboard/DashboardView.tsx:58-62 | min(10, count) reports, newest first, a sub-multiset of the table |
| Dashboard.RecentReportsAreNewest | src/components/Dashboard/DashboardView.tsx:58-62 | a report left out of the latest ten is no newer than any listed one |
| Dashboard.BarPercent | src/components/Dashboard/DashboardView.tsx:242 | the width is cantidad/total as a percentage |
| Dashboard.BarWithinBounds | src/components/Dashboard/DashboardView.tsx:234-244 | a rendered bar is in (0, 100], and exactly 100 when one category holds every report |
| Dashboard.ScreenOf | src/components/Dashboard/DashboardView.tsx:119-142 | non-administrators get exactly the restricted notice; the panel is only shown to an administrator once loaded |
| Dashboard.View.constructor | src/components/Dashboard/DashboardView.tsx:30-40 | zeroed stats, loading |
| Dashboard.View.FetchStats | src/components/Dashboard/DashboardView.tsx:51-103 | no reports data: stats kept; otherwise tallied stats, the latest ten or [], and the user count or 0 |
| Dashboard.View.OnMount | src/components/Dashboard/DashboardView.tsx:45-49 | only an administrator's dashboard fetches; otherwise nothing changes |
| ProfileView.Assigned | src/components/Profile/ProfileView.tsx:23-26 | exactly the reports assigned to that administrator |
| ProfileView.ComputeAdminStats | src/components/Profile/ProfileView.tsx:28-36 | totalAssigned is the number of assigned reports; resolved and inProgress are the numbers of them that are resuelto and en_proceso (the dashboard's `CountStatus`), each at most totalAssigned |
| ProfileView.ResolvedAndInProgressWithinTotal | src/components/Profile/ProfileView.tsx:29-30 | resolved + inProgress ≤ totalAssigned |
| ProfileView.ResolutionRate | src/components/Profile/ProfileView.tsx:137-139 | the rate shown; stated by `RateIsNearestPercent` and `RateBounds` |
| ProfileView.RateIsNearestPercent | src/components/Profile/ProfileView.tsx:138 | the rate is the whole percentage nearest to resolved/total; a half rounds up |
| ProfileView.RateBounds | src/components/Profile/ProfileView.tsx:137-139 | the rate is in [0, 100]; it is 0 with nothing assigned or nothing resolved, and 100 when all are resolved |
| ProfileView.RoleName | src/components/Profile/ProfileView.tsx:40-44 | `ROLE_LABELS`: every role has a non-empty label |
| ProfileView.RoleNamesDistinct | src/components/Profile/ProfileView.tsx:40-44 | two different roles never share a label |
| ProfileView.RoleLabel | src/components/Profile/ProfileView.tsx:74 | without a profile the citizen label is shown |
| ProfileView.AdvertisedPoints | src/components/Profile/ProfileView.tsx:227-240 | the guide's four amounts, +10, +5, +15 and +3, are all positive |
| ProfileView.ShowsEarningGuide | src/components/Profile/ProfileView.tsx:79-242 | the citizen branch, with the earning guide, is shown exactly without a profile or for the citizen role |
| ProfileView.GuideMatchesCredits | src/components/Profile/ProfileView.tsx:227-232 | the advertised +10 and +5 equal the amounts ReportForm.tsx:90 and EducationView.tsx:57 record |
| ProfileView.Page.constructor | src/components/Profile/ProfileView.tsx:8-12 | zeroed figures |
| ProfileView.Page.FetchAdminStats | src/components/Profile/ProfileView.tsx:22-38 | the figures are computed from the assigned reports when the query succeeds; otherwise they are kept |
| ProfileView.Page.OnMount | src/components/Profile/ProfileView.tsx:14-20 | the figures are fetched for administrators only |
| Session.StepPreservesValid | src/components/Rewards/RewardsView.tsx:44-68 | each writing handler (ReportForm.tsx:61-106, ReportDetail.tsx:45-83, EducationView.tsx:31-88, RewardsView.tsx:44-68) keeps the store valid |
| Session.RunPreservesValid | src/components/Rewards/RewardsView.tsx:45-61 | after any sequence of report creations, updates, views, likes and redemptions, every profile's points are ≥ 0 and the store is valid |
| Navbar.NavItems | src/components/Layout/Navbar.tsx:14-22 | non-admins get exactly reports, rewards, education; admins get the dashboard first and then those three unchanged; ids are distinct |

## Findings

| source | as written | input that shows it | evidently intended | confidence | as-written member | corrected member |
|---|---|---|---|---|---|---|
| src/components/Education/EducationView.tsx:54-59 | a first view inserts an `educacion` activity worth 5 and never changes `profiles.points` | any user with a profile opening an item they have not viewed: the balance is unchanged while the recorded credits rise by 5 | credit the balance by 5, as report creation does through `increment` (ReportForm.tsx:94-97) and as the profile page advertises (ProfileView.tsx:231) | medium, not executed; a backend trigger, which is not part of this model, could do the credit, but then report creation would be credited twice | Education.FirstViewLeavesBalanceBehind | Education.ViewContentCreditedKeepsDrift |

`Education.ViewContent` and `Education.Page.HandleViewContent` model the code as
written. `Education.ViewContentCredited` and
`Education.Page.HandleViewContentCredited` are the corrected forms.

## Left out

- The backend client and the network. The store is in memory. Each gateway
  answer the code inspects is an input flag or ok, and so are the three
  unchecked writes named above.
- Education.ViewContent and Education.ToggleLike: the interaction, view-count
  and activity writes at EducationView.tsx:43-59 and 74-84 are modelled as
  succeeding, and so is the `maybeSingle` lookup before them. A failure there
  is not modelled.
- Row-level security and backend triggers. The backend's policies are not part
  of this model, so writes are never refused because of who is writing.
- The `increment` procedure's body is not part of this model. It is modelled as
  adding x to the points of the profile with that id. Timestamps come from one
  logical clock, and the "now" of a write is the clock's value.
- Identifiers are naturals, not UUIDs. The `profiles(full_name)` joins in the
  listings are left out.
- The session (`useAuth`, `refreshProfile`, `signOut`) is left out. The current
  profile, or the user id, is an input. Education and report creation assume a
  signed-in user. The `profile?.id` of a missing profile is not modelled.
- Browser geolocation is left out. Its answer is an input of
  `ReportForm.Form.CaptureLocation`.
- ProfileView.ResolutionRate: models `Math.round` on floats as exact rounding
  over the integers, `(200·resolved + total) div (2·total)`. Floating-point
  error is not modelled.
- Dashboard.BarPercent: computed over reals, so CSS widths and floating-point
  rounding are not modelled.
- Query.SortDesc and Query.SortAsc: the backend's order among equal keys is
  unspecified. The model fixes one order. Only sortedness and permutation are
  stated.
- Concurrency and the parallel `Promise.all` of RewardsView.tsx:22 are left
  out. Handlers run one at a time. A stale balance or view count is passed in
  explicitly (the `profile` of `Redeem`, the `content` of `ViewContent`).
- Sign-up, authentication pages, routing in App.tsx, ReportCard's label and
  colour tables, alerts, console output, icons, JSX and CSS are UI only and
  left out. The `selectedReport` handling of the dashboard and the report list
  is also left out.
- Dashboard.Tally: `categorias` is a map, so the order in which `Object.entries`
  lists the bars (DashboardView.tsx:234) is not modelled.
- The table's own view count is not read before the write at
  EducationView.tsx:49-52. `Education.StaleRecordLowersViews` and
  `Education.TwoViewersFromOneRecordCountOnce` show what a stale record does:
  it can lower the count or lose a view.
- The rewards table is never written by the core. Its ids are assumed to be
  keys, as part of `Store.Valid`.
- The earning ways `reciclaje` (+15) and `compartir` (+3) are advertised at
  ProfileView.tsx:235-240. No core handler credits them, so there is nothing
  to model beyond `ProfileView.AdvertisedPoints`.

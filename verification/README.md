# ZVPN: metering, sessions, routing and failure protocols

A Dafny model of the parts of the ZVPN panel that are hardest to get right, and proofs about whole runs of them:

- **Metering.** One account balance is fed by the cumulative counters of strongSwan's CHILD SAs and of Xray's three
  transports. `IkeCounters` is the delta kernel, `Ledger` the database with one function for each transaction and a
  class that performs the same statements in place, `LedgerRows` says which rows and columns each of them moves, and
  `LedgerRuns` covers every interleaving of transactions and administrator steps. `SaMetering` watches one IKE id while
  SAs, CHILDs, restarts, samples and purges come and go, `SaReturns` tells its honest runs from the others, and
  `SaAccounting` shows when nothing carried goes unbilled. `XrayCollector` and `XrayReader` do the same for Xray
  collections that race with restarts and with every other transaction. `Enforcement` is the quota pass, `XrayIdentity`
  the statistics names.
- **Sessions.** `SessionReconciler` is the max-devices reconciler, in place; `ReconcilerRuns` proves what holds across
  snapshots, `ReconcilerReports` what one reconcile reads and reports.
- **Routing.** `RelayMerge` gives templates a first-match semantics and proves what the backend's and the browser's
  merges do to it, `RelayTemplates` what they leave of the template itself. `WarpPolicy` and `WarpEgress` compile a WARP
  policy into two chained configurations and a firewall, and prove that both paths mean the policy, from the inbound a
  flow enters to the provider behind it.
- **Failure protocols.** `RelayApply` and `RelayText` are the relay helper's update with its rollback, `RelayMeaning` what
  strongSwan reads after it. `Netfilter` and `NetfilterRuns` are the router's kernel rules with a crash at any command,
  and `WarpKernel` takes a packet through them to the gateway. `SyncQueue` is the promise chain of
  synchronization jobs with its retry timer.

Objects that the source updates in place are classes whose methods are proved equal to a function of the old state;
the lemmas are about those functions. `Sums` holds sums over maps. `dafny verify dfyconfig.toml` checks everything.

## Where the code differs from what it promises

- A comment in `backend/src/services/ikeCounters.js:20-21` says a temporarily absent CHILD is not billed twice. That is
  false in two cases: a sample that lists no CHILD stores no cursor map, and the first sample after a purge sets cursors
  only for the CHILDs it lists. `SaReturns.EmptySampleOverbills` and `SaReturns.PurgeOverbills` are the runs, under every
  poll interval. Before such a sample, the hidden CHILDs may return if and only if the billed bytes and theirs together
  stay within the bytes carried: `SaReturns.ForgottenMayReturnExactly`. `SaMetering.NeverOverbilled` is about the runs in
  which no forgotten CHILD returns (`NoReturn`), and `SaReturns.SafeExactly` shows that this and the schedule are exactly
  what is needed.
- A counter below its cursor is taken for a restarted one, so a restart goes unnoticed when the counter climbs back over
  the cursor between two samples, and the bytes up to the cursor are not billed: `SaAccounting.TrafficExactly` says when.
- The ten-minute purge is safe only when a purged SA is recognised as late. Tick starts are a poll interval apart, and a
  tick ends with the purge. After a restart or an overlong tick the next samples may follow at once, and then 299 s is the
  longest safe interval: `SaReturns.SafeWithoutGap`. Otherwise, for whole seconds, a schedule is safe exactly when the
  interval and the length of a tick together stay within 599.001 s: `SaReturns.SafeOnTime`.
- A stored limit of 0 blocks an account that is not shown as ended: `Enforcement.BlockedExactly` says exactly when.
- The two relay merges do not commute when an api rule that names no inbound stands behind another relay's rule:
  `RelayMerge.OrderMatters`, with the exact condition, relay by relay, in `RelayMerge.OrdersAgreeExactly`.
- Browser and backend differ on a template with two inbounds under the Xray test tag: `RelayMerge.BrowserIsBackendExactly`.
- A deletion the kernel refuses (its result is ignored) can leave an accepting guard rule that a later installation puts
  below the rejecting one: `NetfilterRuns.RefusedDeletionBreaksGuard` is the input, `NetfilterRuns.RefusalsProtectExactly`
  the exact condition, and `NetfilterRuns.StagedExactly` says which runs keep the installation's order. A check that fails
  although its rule is there is covered by the same theorem and by `NetfilterRuns.AboveExactly`.
- A failed installation of redirections does not always leave none. Its deletions are not checked either, and an insertion
  that timed out may have taken effect: `NetfilterRuns.RefusedUndoLeavesRule` is the input, and
  `NetfilterRuns.NoManagedLeftExactly` the exact condition.
- Over IKE, HTTP/3 is refused for every name, over Xray only for the handed ones: `WarpEgress.SameQuicExactly` says when the
  two paths agree.

## Model

| member | source | states |
|---|---|---|
| IkeCounters.IkeCounterDelta | backend/src/services/ikeCounters.js:1-25 | the loops over CHILDs give exactly the delta and the cursor map of `Bill`; said without it: under a new id the whole SA is billed unless it is late, under an id whose row belongs to another account or another known identity it is billed whole, and a cursor map is stored exactly when CHILDs are listed |
| IkeCounters.ChargeTelescopes | backend/src/services/ikeCounters.js:14-22 | for counters that never fall, one sample bills exactly the rise of the sum of all cursors |
| IkeCounters.FinalCursorsRead | backend/src/services/ikeCounters.js:11-22 | after a run the cursor of every key ever seen is its last reading, also for CHILDs that retired |
| IkeCounters.BilledIsRise | backend/src/services/ikeCounters.js:10-23 | the bill of a run is the rise of the sum of cursors from its first to its last row |
| IkeCounters.BilledTelescopes | backend/src/services/ikeCounters.js:10-23 | over any run of one SA the bill is the sum over all keys ever seen of last value minus starting cursor (0 for a new key), however CHILDs overlap, retire and reappear |
| SaMetering.SampleBillsOwed | backend/src/services/ikeUsage.js:10-19 | under a safe schedule a sample bills at most what the remembered CHILDs owe: billed bytes plus bytes owed stay at most the bytes carried |
| SaMetering.StepKeepsInvariant | backend/src/services/ikeCounters.js:2-23 | that bound survives connects with a reused id, rekeys, counter restarts, hidden CHILDs, samples and purges, everything but the return of a forgotten CHILD |
| SaMetering.PurgedIsLate | backend/src/services/ikeCounters.js:5 | under a safe schedule a billed SA whose row was purged is late, so its next sample is only baselined |
| SaMetering.NeverOverbilled | backend/src/services/ikeCounters.js:2-23 | in every run of one IKE id under a safe schedule in which no forgotten CHILD returns, no SA, live or gone, is ever billed more than it carried |
| SaReturns.EmptySampleOverbills | backend/src/services/ikeCounters.js:9-10 | under every schedule there is a run that hides a CHILD from one empty sample and bills its bytes twice when it returns |
| SaReturns.PurgeOverbills | backend/src/services/ikeCounters.js:5-11 | under every schedule there is a run that hides a CHILD from the first sample after a purge, while another is listed, and bills its bytes twice when it returns |
| SaReturns.HastyScheduleOverbills | backend/src/worker.js:136 | under a schedule that does not recognise a purged SA as late there is a run without any return that bills an SA twice |
| SaReturns.FreeReturnsExactly | backend/src/services/ikeCounters.js:20-22 | with every CHILD free to return, nothing that follows overbills if and only if all that the CHILDs owe was not billed yet |
| SaReturns.ForgottenMayReturnExactly | backend/src/services/ikeCounters.js:20-22 | before a sample that loses cursors: its hidden CHILDs may return if and only if billed bytes plus the bytes of the hidden CHILDs stay at most the bytes carried, in both directions |
| SaReturns.PaidUpMayReturnExactly | backend/src/services/ikeCounters.js:20-22 | for an SA billed for all it carried: if and only if every hidden CHILD has counted nothing |
| SaReturns.SafeExactly | backend/src/services/ikeCounters.js:2-23 | no run overbills if and only if forgotten CHILDs stay away and the schedule recognises every purged SA as late |
| SaReturns.SafeWithoutGap | backend/src/config.js:66 | when a sample may follow a purge at once, the schedule is safe if and only if the poll interval is at most 299 s |
| SaReturns.SafeOnTime | backend/src/worker.js:173 | with tick starts an interval apart and ticks of a given length, the exact bound on the interval; for whole seconds, interval plus length at most 599.001 s |
| SaReturns.ForgetAndReturn | backend/src/services/ikeCounters.js:9-23 | from any sample that loses cursors a return of all CHILDs adds exactly the bytes of the hidden ones to the bill |
| SaAccounting.EveryByteIsBilled | backend/src/services/ikeCounters.js:2-23 | an SA that connects under an id with no row, or with the row of another SA or account: while no byte is lost, billed and owed bytes together are exactly the bytes carried, in both directions, also across counter restarts and CHILDs that go away |
| SaAccounting.FullSampleSettles | backend/src/services/ikeCounters.js:10-23 | and after a sample that lists every CHILD everything carried is billed |
| SaAccounting.TrafficExactly | backend/src/services/ikeCounters.js:2-3 | traffic keeps billed and owed bytes equal to the carried ones if and only if no restarted counter climbs back over its cursor before it is sampled |
| SaAccounting.RestartExactly | backend/src/services/ikeCounters.js:2-3 | a restart does if and only if the counter was zero or fully billed |
| SaAccounting.DropExactly | backend/src/services/ikeCounters.js:14-19 | and so does a CHILD that goes away |
| Ledger.Database.RecordIkeSession | backend/src/services/ikeUsage.js:4-28 | the whole new database: activity, cursor row, and the delta booked into balance, day and hour; nothing for an unknown account |
| Ledger.Database.BookIke | backend/src/services/ikeUsage.js:20-26 | bytes-in to upload, bytes-out to download, both to the total, and relay bytes to the relay columns of account, day and hour |
| Ledger.Database.RecordXrayCounters | backend/src/services/sharedUsage.js:4-37 | the whole new database for each transport, or an error and an unchanged database for an unknown transport or a counter that fell within its epoch |
| Ledger.Database.BookXray | backend/src/services/sharedUsage.js:18-33 | one shared balance: the delta goes to the total, the Xray column and its transport's column, the day and the hour; first traffic starts the clock |
| Ledger.Database.ActivateOnFirstConnect | backend/src/worker.js:42-51 | the conditional update: the clock starts only if both the stale row and the stored row have no first connection |
| Ledger.Database.Reset | backend/src/services/usageReset.js:3-7 | balances and rows go, cursors stay |
| Ledger.Database.Purge | backend/src/worker.js:136 | exactly the rows not seen for ten minutes go |
| LedgerRows.IkeRowsExactly | backend/src/services/ikeUsage.js:20-26 | of all daily and hourly rows only the account's row of the given day and of the given hour grow, by the bill, their relay column only for a relay session |
| LedgerRows.IkeColumnsExactly | backend/src/services/ikeUsage.js:23 | the account's columns grow by the bill, bytes-in as upload and bytes-out as download; no other account changes |
| LedgerRows.IkeCursorExactly | backend/src/services/ikeUsage.js:9-19 | the id's row holds the account, the identity, the totals and the listed CHILDs of the sample; no other row and no Xray cursor changes; the day's activity is noted |
| LedgerRows.XrayRowsExactly | backend/src/services/sharedUsage.js:29-32 | of all daily and hourly rows only the account's row of the given day and of the given hour grow, by the growth since the cursor, their Iran column only for that transport |
| LedgerRows.XrayColumnsExactly | backend/src/services/sharedUsage.js:18-28 | the growth goes to total, Xray, upload, download and the one transport's column; no other account changes |
| LedgerRows.XrayCursorExactly | backend/src/services/sharedUsage.js:18-36 | the transport's cursor becomes the reading, no other cursor changes, and the day's activity is noted exactly when bytes were counted |
| LedgerRows.XrayRefusedExactly | backend/src/services/sharedUsage.js:4-16 | refused exactly for an unknown transport, or for a known account whose counter fell within its epoch |
| LedgerRows.ResetExactly | backend/src/services/usageReset.js:3-7 | one account's balance and rows are zero; cursors, clock, gate and everyone else stay |
| LedgerRows.PurgeExactly | backend/src/worker.js:136 | a row stays exactly when it was seen within the last ten minutes |
| LedgerRows.ConnectStartsExactly | backend/src/worker.js:42-56 | the clock starts at the present exactly when neither the row read earlier nor the stored one was started, and then the expiry is the duration from now unless one was fixed |
| LedgerRows.XrayStartsExactly | backend/src/services/sharedUsage.js:24-27 | a record that counts bytes starts a clock that was not started; one that counts none leaves it alone |
| LedgerRuns.IkeConserves | backend/src/services/ikeUsage.js:20-26 | an IKE record keeps every total equal to the sum of its rows |
| LedgerRuns.XrayConserves | backend/src/services/sharedUsage.js:18-33 | an Xray record on any transport keeps every total equal to the sum of its rows |
| LedgerRuns.EventConserves | backend/src/services/users.js:90-115 | so does every other transaction: connects, resets, purges, account creation, extension, reactivation and deletion |
| LedgerRuns.RunConserves | backend/src/services/usageReset.js:3-7 | from an empty database every interleaving keeps usage_total = upload + download = the sum of daily rows = the sum of hourly rows, relay and Iran sub-totals equal to their columns, and sub-totals nested |
| LedgerRuns.ShownIsPartition | backend/src/utils/format.js:33-40 | no clamp of the display bites exactly when the columns nest, and then the parts add up |
| LedgerRuns.DisplayPartitions | backend/src/server.js:129-133 | after every run the shown split is an exact partition of usage_total, for each account and for the dashboard sums |
| LedgerRuns.ClockStep | backend/src/services/sharedUsage.js:21-28 | an event without administrator rights leaves the clock alone or starts it, setting the expiry from the duration only where none was fixed |
| LedgerRuns.ClockStartsOnce | backend/src/worker.js:42-56 | in every interleaving with stale reads there is one event before which the clock is untouched and after which it is as that event set it |
| LedgerRuns.ExtendReaches | backend/src/services/users.js:90-97 | an extension reaches the given days beyond both the present and the old expiry, no further, unblocks, and changes nothing else |
| LedgerRuns.BalanceFollowsCounters | backend/src/services/ikeUsage.js:12-23 | over successive samples an account's upload grows by exactly the rise of the bytes-in counters, its download by that of bytes-out |
| XrayReader.Reader.CommitEach | backend/src/services/xray.js:68-72 | the loop commits entry by entry; the first error stops it and keeps what was committed |
| XrayReader.Reader.CollectXrayUsage | backend/src/services/xray.js:48-75 | nothing is committed unless one process generation answered before and after the statistics; failures are remembered, quiet returns change nothing |
| XrayReader.CommittedFromOneGeneration | backend/src/services/xray.js:56-62 | whatever happens between the three calls, the statistics that get committed are the counters of the generation they are committed under |
| XrayReader.LoopIsRun | backend/src/services/xray.js:68-72 | the commit loop is a run of the collector's world, so the statements about runs are about the loop |
| XrayReader.EveryReadingIsCommitted | backend/src/services/xray.js:68-72 | a loop that ends without an error leaves every reading of a known account as its cursor, and no other cursor changes |
| XrayCollector.CommitNeverRegresses | backend/src/services/xrayConfig.js:67-72 | the regression error is never raised by serialized collections of monotone counters, whatever restarts and aborts happened |
| XrayCollector.DeltaIsRise | backend/src/services/xrayConfig.js:67-72 | a delta against the stored cursor is the rise of the sum over generations of last committed readings, also when the epoch changed |
| XrayCollector.StepKeeps | backend/src/services/xray.js:56-75 | traffic, stops, starts, aborts, every step of a collection and every other transaction keep the collector's invariant |
| XrayCollector.BillIsLastReadings | backend/src/services/xray.js:56-75 | in every run mixed with IKE records, connections, resets, purges and administrator steps each committed reading was taken from the generation it is stored under, the bill of an account and transport is the sum over generations of the last committed reading and at most the true traffic, and the account columns are exactly the Xray and IKE bills since the last reset |
| Enforcement.Review | backend/src/worker.js:72-78 | the reason in the order expired, daily, total, and a write exactly when block or reason changes |
| Enforcement.EnforceQuotas | backend/src/worker.js:64-90 | the pass gives every account its verdict, writes exactly the changed ones and nothing else |
| Enforcement.ReasonExactly | backend/src/worker.js:72-76 | the reason is the date if it has passed, else the day if its limit is reached, else the total if its limit is, else none |
| Enforcement.PassTouchesOnlyBlocks | backend/src/worker.js:64-90 | a pass changes nothing but block and reason of accounts |
| Enforcement.TodayCountsIke | backend/src/worker.js:64-78 | the usage the pass compares with the daily limit grows by an IKE bill exactly if that was booked today |
| Enforcement.TodayCountsXray | backend/src/worker.js:64-78 | and by an Xray record's growth exactly if that was booked today |
| Enforcement.BlockedExactly | backend/src/utils/accountLifecycle.js:1-11 | after a pass an account is blocked if and only if it is shown ended or over its day, exactly when it stores no bare limit of 0 |
| Enforcement.PassIsStable | backend/src/worker.js:77-78 | a second pass with unchanged usage and clock writes nothing |
| Enforcement.ClientsExactly | backend/src/services/xrayConfig.js:8-39 | a generated client list holds exactly the eligible accounts of the rows |
| Enforcement.ClientsAfterPass | backend/src/services/xrayConfig.js:8-39 | lists built after a pass hold exactly the enabled accounts that are neither ended nor over their day |
| SessionReconciler.SortIsSorted | backend/src/services/sessionReconciler.js:30-38 | both sorts give an ordered permutation of the sessions |
| SessionReconciler.OrdersAreBySeconds | backend/src/services/sessionReconciler.js:12-38 | newestFirst puts first who has been connected for fewer seconds, oldestFirst who has been for more; equal ages go by id, and a session without a valid age counts as the oldest |
| SessionReconciler.SortsBySeconds | backend/src/services/sessionReconciler.js:30-38 | in the sorted lists no later session is younger, or older, in these terms |
| SessionReconciler.ExcessIgnoresInputOrder | backend/src/services/sessionReconciler.js:45-53 | the choice does not depend on the order of the snapshot |
| SessionReconciler.ExcessExactly | backend/src/services/sessionReconciler.js:45-53 | exactly max sessions stay, at least one; under disconnect_oldest each was connected more recently than every selected one, under reject_newest less recently |
| SessionReconciler.ExcessInSeconds | backend/src/services/sessionReconciler.js:45-53 | under disconnect_oldest a selected session is at least as many seconds old as one that stays, under reject_newest at most as many |
| SessionReconciler.TerminateExtras | backend/src/services/sessionReconciler.js:134-149 | the loop over the excess: what is called, what is remembered, and what is reported |
| SessionReconciler.GroupByUser | backend/src/services/sessionReconciler.js:91-98 | sessions grouped by user in order of first sight, sessions without a user dropped |
| SessionReconciler.Reconciler.constructor | backend/src/services/sessionReconciler.js:62-80 | grace at least 0, retry at least one second, no users |
| SessionReconciler.Reconciler.Forget | backend/src/services/sessionReconciler.js:104-109 | users without sessions and attempts on vanished SAs are forgotten, nothing else |
| SessionReconciler.Reconciler.ReconcileUser | backend/src/services/sessionReconciler.js:111-149 | one user's state and actions; other users untouched |
| SessionReconciler.Reconciler.ReconcileAll | backend/src/services/sessionReconciler.js:111-149 | the walk gives every listed user the state and the actions of its own tick |
| SessionReconciler.Reconciler.Reconcile | backend/src/services/sessionReconciler.js:89-155 | the whole new state of all users and the whole list of actions |
| ReconcilerReports.MineExactly | backend/src/services/sessionReconciler.js:92-98 | a user's list holds exactly the snapshot's sessions under its name |
| ReconcilerReports.NamesInOrder | backend/src/services/sessionReconciler.js:92-98 | users are walked in the order in which the snapshot first names them, each once, the nameless never |
| ReconcilerReports.CallsFollow | backend/src/services/sessionReconciler.js:136-149 | the calls follow the excess in its order, each with the reply it got |
| ReconcilerReports.ReportsExactly | backend/src/services/sessionReconciler.js:111-149 | within the limit nothing is reported, within the grace period the number of SAs, the limit and the remaining time, afterwards every call by its reply |
| ReconcilerRuns.OverExactly | backend/src/services/sessionReconciler.js:162-168 | over the limit means more than one SA, and more than the account's limit where it has one |
| ReconcilerRuns.UsersAreIndependent | backend/src/services/sessionReconciler.js:104-153 | a user's state over a run depends on its own snapshots alone |
| ReconcilerRuns.GraceRespected | backend/src/services/sessionReconciler.js:129-133 | a terminate is issued only if some snapshot at least graceMs old, and every snapshot since, showed the user over the limit then in force |
| ReconcilerRuns.OncePerSnapshot | backend/src/services/sessionReconciler.js:136-149 | one reconcile calls terminate at most once for each id of a user |
| ReconcilerRuns.OncePerReconcile | backend/src/services/sessionReconciler.js:111-149 | with distinct ids in the snapshot no id is called for two users, so one reconcile calls terminate at most once for each id |
| ReconcilerRuns.NoRepeatAfterSuccess | backend/src/services/sessionReconciler.js:139 | after a successful or already-gone terminate the SA is not terminated again while it stays listed and its user over the limit |
| ReconcilerRuns.RetrySpacing | backend/src/services/sessionReconciler.js:140 | the next attempt after a failed one comes at least retryMs later |
| ReconcilerRuns.ExcessIsEnforced | backend/src/services/sessionReconciler.js:129-149 | with an advancing clock, once a user was over the limit for graceMs every SA of the excess has been attempted, with success or less than retryMs ago, and every snapshot since has listed it |
| ReconcilerRuns.TerminatedClosed | backend/src/services/sessionReconciler.js:45-53 | under disconnect_oldest, with every listed SA older in seconds than a terminated one terminated too, runs stay so |
| ReconcilerRuns.KeepsNewest | backend/src/services/sessionReconciler.js:45-53 | under disconnect_oldest every first-time termination leaves as many never-terminated SAs of the account that connected later as it may have, at least one |
| RelayMerge.MergeKeepsForeignRoutes | backend/src/services/ikeRelayConfig.js:42-58 | every request on an inbound the merge does not own is routed as before |
| RelayMerge.MergeRoutesRelay | backend/src/services/ikeRelayConfig.js:55-57 | a request on the relay inbound goes to the fragment's outbound unless a leading api rule matches it |
| RelayMerge.XrayMergeKeepsForeignRoutes | backend/src/services/xrayRelayConfig.js:36-47 | the Xray merge with its renamed test inbound leaves foreign requests as they were |
| RelayMerge.XrayMergeRoutesRelay | backend/src/services/xrayRelayConfig.js:36-47 | and sends the relay's requests to the fragment's outbound unless a leading api rule matches |
| RelayMerge.MergeIdempotent | backend/src/services/ikeRelayConfig.js:42-58 | merging again gives the same template, also after adopting the legacy test inbound |
| RelayMerge.MergeXrayIdempotent | backend/src/services/xrayRelayConfig.js:36-47 | so does the Xray merge |
| RelayTemplates.MergeExactly | backend/src/services/ikeRelayConfig.js:38-59 | which templates the merge accepts, what a refusal says, and what is left: outbounds and every other field as they were, the other inbounds in order and then the relay's with its port and tag, the rules in order without the replaced tags, and the relay's rule before the first that does not lead to the api |
| RelayTemplates.MergeXrayExactly | backend/src/services/xrayRelayConfig.js:36-47 | the same of the Xray merge: rules lose the test tag everywhere, of the inbounds under it only the first goes |
| RelayTemplates.BrowserExactly | frontend/src/components/IkeRelaySettings.tsx:39-57 | the same of the page on either tab: inbounds and rules lose every replaced tag |
| RelayTemplates.OwnedExactly | frontend/src/components/IkeRelaySettings.tsx:42-46 | the replaced tags are the relay's own and those of hand-made relays on its port |
| RelayTemplates.DecimalExactly | backend/src/services/ikeRelayConfig.js:43-47 | a port's text is its decimal form without leading zeros |
| RelayMerge.KeptRules | frontend/src/components/IkeRelaySettings.tsx:50-54 | the flatMap over the rules: owned inbounds are struck from them, and a rule on nothing else goes |
| RelayMerge.BrowserMerge | frontend/src/components/IkeRelaySettings.tsx:37-57 | the callback, with its own loops, gives the backend's IKE result for an IKE fragment and the backend's Xray result for an Xray fragment when at most one inbound carries the test tag; none where the backend rejects; outbounds and all other fields stay |
| RelayMerge.IkeBrowserIsBackend | frontend/src/components/IkeRelaySettings.tsx:39-57 | for IKE fragments the browser gives the backend's template or rejection on every template |
| RelayMerge.BrowserIsBackend | backend/src/services/xrayRelayConfig.js:36-47 | for Xray fragments too, when at most one inbound carries the test tag |
| RelayMerge.BrowserIsBackendExactly | frontend/src/components/IkeRelaySettings.tsx:42-49 | the two agree exactly when the template is invalid, adopts no ambiguous test tag, or is rejected for its outbound or its port |
| RelayMerge.OrdersAgreeExactly | backend/src/services/ikeRelayConfig.js:50-57 | the two merges in either order send every request to the same outbound if and only if, for each relay whose own outbound is not "api", the api rules it stays behind have the same conditions in both orders |
| RelayMerge.NamedApiRulesCommute | backend/src/services/ikeRelayConfig.js:55-57 | they always do when every api rule names its inbounds, whatever outbounds the relays use |
| RelayMerge.OthersCommute | backend/src/services/ikeRelayConfig.js:50-57 | requests on every inbound but the two relays are routed alike in both orders, with no condition |
| RelayMerge.OrderMatters | backend/src/services/ikeRelayConfig.js:55-57 | a template and a request for which the order matters |
| WarpPolicy.MainXray | ops/helper/warp_policy.py:74-97 | the compiled main configuration: unchanged for a policy that is absent, disabled or selects nobody, and otherwise its outbounds and rules kept in front and its inbounds kept, except that every VLESS inbound sniffs for routing |
| WarpPolicy.EmailList | ops/helper/warp_policy.py:88 | the statistics names of the selected accounts on all three transports |
| WarpPolicy.FirstOccurrences | ops/helper/warp_policy.py:93 | the loop computes `Unique` |
| WarpPolicy.UniqueExactly | ops/helper/warp_policy.py:93 | which lists the names at the positions of first occurrences, in order, and all of them |
| WarpEgress.GatewayConfig | ops/helper/warp_policy.py:100-130 | the built configuration sends every flow but the statistics API's where the policy says, and keeps the API reachable; where flows enter it is in the next rows |
| WarpEgress.GatewayDoors | ops/helper/warp_policy.py:116-126 | what listens on the gateway's ports: redirected connections from every address on 10087, SOCKS on 40001 and the statistics service on 10089, these two on loopback, the first two sniffing |
| WarpEgress.DoorsMeanSpec | ops/helper/warp_policy.py:85-130 | a flow handed to port 40001 by SOCKS, or redirected to port 10087, enters by what listens there and meets the policy, also when it asks for an address |
| WarpEgress.NameHandedExactly | ops/helper/warp_policy.py:118-123 | over IKE the proxy is always asked by name, over Xray exactly when the client asked so |
| WarpEgress.GatewayAnswers | ops/helper/warp-router.py:158-159 | the gateway's counters answer on the port they are read from |
| WarpEgress.MainAnswers | backend/src/services/xray.js:60 | and the main Xray's on theirs, under every policy |
| WarpPolicy.HandedExactly | ops/helper/warp_policy.py:92-93 | the handed names are the included ones and, with the split, the Antigravity ones |
| WarpEgress.EmailSelectsAccount | ops/helper/warp_policy.py:88 | on every transport a user condition selects exactly the accounts of the policy |
| WarpEgress.GatewayMeansSpec | ops/helper/warp_policy.py:100-130 | the gateway alone applies "excluded, Antigravity split, included, direct" to every flow |
| WarpEgress.XrayMeansSpec | ops/helper/warp_policy.py:74-130 | main Xray followed by the gateway means the policy for every flow of every account, by name or by address, TCP and UDP, enabled or not: the flow enters by its inbound, is handed to a port and taken by what listens there, and leaves by the provider whose service listens behind; the statistics API is untouched |
| WarpEgress.HandedLeavesDirectExactly | ops/helper/warp_policy.py:101-111 | a flow handed to the gateway leaves directly if and only if the policy fails open and the proxy in charge is down, so never in block mode |
| WarpEgress.FirewallRules | ops/helper/warp-router.py:70-86 | the redirections and refusals for the policy's tunnels, or for the whole pool |
| WarpEgress.IkeMeansSpec | ops/helper/warp-router.py:70-86 | a tunnel's web flows, redirected to a port and taken by what listens there, reach the egress of the policy; its HTTP/3 is refused as configured, all else is untouched |
| WarpEgress.OutsidersUntouched | ops/helper/warp-router.py:74-80 | a packet that no tunnel carried is never redirected or refused, whatever source it claims |
| WarpEgress.SameEgressOnEveryPath | ops/helper/warp_policy.py:117-123 | one account's web flow leaves by the same egress over every Xray transport, asked for by name or by address, and over IKE |
| WarpEgress.SameQuicExactly | ops/helper/warp-router.py:83-85 | its HTTP/3 is treated alike if and only if the policy does not refuse it, does not cover the account, or hands over the name |
| Netfilter.Kernel.Guard | ops/helper/warp-router.py:94-112 | after a death at any command the chain is the first steps of installation or removal, the IPv6 rule first; refused deletions do nothing and failing checks insert again |
| Netfilter.Kernel.Sweep | ops/helper/warp-router.py:119-124 | the deletions of one table, cut short anywhere, those refused without effect |
| Netfilter.Kernel.Cleanup | ops/helper/warp-router.py:115-125 | a full cleanup leaves exactly the rules that are not managed, in order, and no journal; a partial one keeps them too |
| Netfilter.Kernel.InstallRules | ops/helper/warp-router.py:128-137 | the leading cleanup may die or have deletions refused, and then nothing is installed or the rules go on what it left; success stacks the rules; a fault at any insertion or journal write leaves exactly `Failed` |
| Netfilter.Kernel.Abandon | ops/helper/warp-router.py:89-91 | deletion in reverse order of insertion, cut short anywhere; a refused deletion is ignored and its rule stays |
| NetfilterRuns.FailureLeavesExactly | ops/helper/warp-router.py:130-137 | a failed installation adds to the managed rules exactly those never deleted, those whose deletion was refused, and one that took effect although it raised; every other rule keeps its place |
| NetfilterRuns.FailureIsUndoneExactly | ops/helper/warp-router.py:136-137 | an exception restores the rules that were there before if and only if no deletion is refused and no insertion took effect unseen |
| NetfilterRuns.NoManagedLeftExactly | ops/helper/warp-router.py:128-137 | after a complete cleanup a failed installation leaves no managed rule under exactly that condition |
| NetfilterRuns.RefusedUndoLeavesRule | ops/helper/warp-router.py:91 | the input: one rule goes in, the journal write raises, the one deletion is refused, and the rule stays |
| NetfilterRuns.InstallStagesExactly | ops/helper/warp-router.py:103-112 | an installation leads from a stage to a stage if and only if no check fails for a rule that is there |
| NetfilterRuns.RemovalStagesExactly | ops/helper/warp-router.py:107-110 | a removal does if and only if, once the deletion of a present rule is refused, every later deletion of the pass is refused too |
| NetfilterRuns.StagedExactly | ops/helper/warp-router.py:94-137 | throughout a run cut short anywhere and with commands failing unseen, the guard rules are a prefix of the installation if and only if every pass is orderly in this sense |
| NetfilterRuns.CrashesRecover | ops/helper/warp-router.py:94-125 | after an orderly run cut short anywhere a full guard completes the installation, a full removal clears it, a full cleanup leaves no managed rule |
| NetfilterRuns.SweepLeavesExactly | ops/helper/warp-router.py:119-124 | a complete sweep leaves as many managed rules of its table as deletions were refused |
| NetfilterRuns.ForeignUntouched | ops/helper/warp-router.py:89-137 | content and order of all foreign rules survive every run, whatever fails |
| NetfilterRuns.InstallationIsUndone | ops/helper/warp-router.py:115-137 | however an installation ended, the next complete cleanup leaves exactly the rules that are not managed |
| NetfilterRuns.StageDecides | ops/helper/warp-router.py:103-106 | at no stage does the guard accept an outsider, from the first rule on it rejects every one, and complete it accepts the redirected tunnels |
| NetfilterRuns.AboveExactly | ops/helper/warp-router.py:94-112 | with checks that may fail, a full guard puts an accepting rule above the rejecting one if and only if it inserts it, or leaves the rejecting rule alone and found the order right |
| NetfilterRuns.GuardProtectsExactly | ops/helper/warp-router.py:94-112 | with truthful checks, from any chain a full guard puts both accepting rules above the rejecting one if and only if none was there without a rejecting one below |
| NetfilterRuns.RefusalsProtectExactly | ops/helper/warp-router.py:107-112 | after a removal with refused deletions a full guard protects if and only if the rejecting rule stayed or no accepting rule did |
| NetfilterRuns.RefusedDeletionBreaksGuard | ops/helper/warp-router.py:109-110 | the input: from a complete guard, one refused deletion and two obeyed ones leave a chain that a full guard does not repair |
| NetfilterRuns.ReversalIsHarmless | ops/helper/warp-router.py:132-133 | inserting every rule at the top puts the policy's list on the chain reversed, above what was there, and the reversed list treats every packet as the policy's list does |
| WarpKernel.InstalledMeansSpec | ops/helper/warp-router.py:70-137 | with a full guard and the policy's rules installed over a clean base, every packet of every tunnel, through the tables and chains the rules stand in, the guard and the gateway, is treated as the policy says |
| WarpKernel.InstalledSparesOutsiders | ops/helper/warp-router.py:74-80 | a packet outside every tunnel is forwarded as before |
| WarpKernel.Ipv6GuardExactly | ops/helper/warp-router.py:95-102 | an installation always leaves the IPv6 listener closed, changes nothing exactly when its check finds the rule, and is undone by a removal exactly when the kernel obeys |
| RelayApply.Disk.Write | ops/helper/ike-relay.py:59-81 | an atomic replacement, an in-place rewrite of the main file that can be torn, or a refused link |
| RelayApply.Disk.Certify | ops/helper/ike-relay.py:138-139 | a certificate is issued exactly when the relay is enabled and the present one does not serve |
| RelayApply.Disk.Rewrite | ops/helper/ike-relay.py:140-150 | legacy, connection and main file as intended, or failure exactly when some step fails |
| RelayApply.Disk.RewriteMain | ops/helper/ike-relay.py:149-150 | the main file is opened for writing only when its text changes, and keeps its mode |
| RelayApply.Disk.Load | ops/helper/ike-relay.py:151-166 | success exactly when both reloads work and the identity shows up within eleven looks, or the relay goes down |
| RelayApply.Disk.Publish | ops/helper/ike-relay.py:167-170 | the recorded policy and the report, or failure |
| RelayApply.Disk.Restore | ops/helper/ike-relay.py:173-177 | the touched files regain content and mode, or absence, one by one; the first failing write leaves exactly the files before it restored and those after it as they were |
| RelayApply.Disk.Apply | ops/helper/ike-relay.py:123-183 | applied exactly when no step fails, with the whole new file state; otherwise every file but the report is exactly as before, or, if a write of the rollback fails too, a prefix of them |
| RelayText.ProductionTextKept | ops/helper/ike-relay.py:143-146 | the update keeps every line of the production configuration in order, adds its include, and drops only the adopted one |
| RelayText.UpdatedText | ops/helper/ike-relay.py:143-146 | the new text includes the relay, is a fixed point of the update, and after an adoption holds no legacy include |
| RelayText.RetiredForGood | ops/helper/ike-relay.py:128-130 | a retired test identity is never adopted again |
| RelayText.SameHostKeepsMain | ops/helper/ike-relay.py:143-150 | after an update another one for the same host leaves the main and the legacy file alone |
| RelayText.ReapplyChangesNothing | ops/helper/ike-relay.py:123-171 | applying the same policy again, certificate still good, changes no file |
| RelayText.StaysUsable | ops/helper/ike-relay.py:141-142 | the production connection survives, so a configuration that could be updated can be updated again |
| RelayMeaning.ConnectionExactly | ops/helper/ike-relay.py:115-120 | the relay's file declares its connection exactly when the relay is enabled, inheriting the production's settings with its own host name and certificate |
| RelayMeaning.RelayDeclaredExactly | ops/helper/ike-relay.py:140-150 | after an update strongSwan reads the production connection, and the relay's exactly when it is enabled, unless somebody declared one of that name elsewhere |
| RelayMeaning.RetiredExactly | ops/helper/ike-relay.py:128-147 | the hand-made test identity is retired and its include gone exactly when its file names this host and its own certificate, and is untouched otherwise |
| RelayMeaning.RecordedExactly | ops/helper/ike-relay.py:167-170 | the policy is recorded as given for the owner alone, the report for everybody to read, the main file keeps its mode |
| RelayMeaning.CertificateExactly | ops/helper/ike-relay.py:138-139 | the certificate is the old one if that matched or the relay is off, and else the one just issued |
| RelayMeaning.InTimeExactly | ops/helper/ike-relay.py:156-161 | an identity that first shows up at some look is in time exactly at the first eleven |
| SyncQueue.Queue.EnqueueSync | backend/src/services/syncQueue.js:14-17 | a job waits for the promise that was the tail |
| SyncQueue.Queue.Begin | backend/src/services/syncQueue.js:18-20 | a job starts: one fewer queued, running |
| SyncQueue.Queue.Finish | backend/src/services/syncQueue.js:27-30 | success clears the error and the timer |
| SyncQueue.Queue.Catch | backend/src/services/syncQueue.js:31-34 | failure records the error while the cleanup is awaited |
| SyncQueue.Queue.Rethrow | backend/src/services/syncQueue.js:35-43 | the cleanup arms a timer if none is armed and settles the job |
| SyncQueue.Queue.TimerFires | backend/src/services/syncQueue.js:35-38 | the timer queues another job |
| SyncQueue.StepKeepsInvariant | backend/src/services/syncQueue.js:14-49 | every event the loop may choose keeps the queue's invariant |
| SyncQueue.OneAtATimeInOrder | backend/src/services/syncQueue.js:45-48 | in every interleaving jobs run one at a time, in the order they were queued, and running says so |
| SyncQueue.ErrorsAreRetried | backend/src/services/syncQueue.js:27-38 | pending equals queued > 0, the recorded error is that of the latest job, at most one timer is armed, only while an error is recorded, a recorded error has a timer, a queued or a running job, and retries never outnumber failures |
| SyncQueue.SuccessDisarms | backend/src/services/syncQueue.js:27-30 | after a success no timer is armed, no error recorded and nothing running |
| SyncQueue.SuccessIsRecorded | backend/src/services/syncQueue.js:28 | the recorded success is the latest one of the run |
| SyncQueue.NeverStuck | backend/src/services/syncQueue.js:45-48 | while a job is queued, running or due, some event can happen |

## Left out

- Ledger.Database.RecordIkeSession: leaves out last_seen_at and the two address columns, and takes a session's byte totals as given.
- SaMetering.NeverOverbilled: forgotten CHILDs do not return in these runs, since the code bills them again (SaReturns.ForgottenMayReturnExactly); CHILD keys are distinct in a sample, do not move between IKE ids, and byte totals are the sums of the CHILDs; legacy rows from before the per-CHILD cursors and deletion of an account while its SA lives are not in these runs.
- LedgerRuns.ClockStartsOnce: duration_days counts days of 24 hours.
- XrayCollector.BillIsLastReadings: the books of a deleted account end with it; one statistics query reads all counters at one moment.
- Enforcement.EnforceQuotas: the pass is one atomic step, while the worker reads all rows and then writes them one by one, so an extension or a reset in between can be overwritten by a verdict on the old row until the next pass; immediate termination of a blocked user's sessions and event logging are not part of this model.
- SessionReconciler.Reconciler.Reconcile: the persistence callbacks are absent, usernames come trimmed, and IKE ids are numbers, as the parser admits no others, so the textual comparison of ids is not reached.
- RelayMerge.MergeKeepsForeignRoutes: conditions of foreign rules other than inboundTag are uninterpreted, and elements of the template's arrays are objects.
- WarpEgress.XrayMeansSpec: where an inbound sniffs, the host name is found; a flow belongs to a listed account of its inbound; validation of the policy's fields is not part of this model, except that a policy lists at least one domain.
- WarpKernel.InstalledMeansSpec: rules of other owners are taken to let these packets through, and the egress is that of a running gateway.
- SaAccounting.EveryByteIsBilled: says nothing of runs in which bytes are lost: a purge, a sample that forgets, a late first sample, a CHILD that restarts or goes away unbilled, or a restarted counter that climbs over its cursor unseen.
- RelayMeaning.RelayDeclaredExactly: only the main file and the two files of this component are read; other includes are not part of this model.
- WarpEgress.FirewallRules: the parsed tunnels are an input; their parsing, sorting and removal of duplicates are not part of this model.
- Netfilter.Kernel.InstallRules: the text of the journal file and a journal that is itself torn are not part of this model; nothing reads it back.
- RelayApply.Disk.Apply: a killed process is not rolled back, and the patterns for the host name and the outbound tag are not checked; texts are cut at newlines only, so a production declaration spread over two lines is not recognised.
- SyncQueue.ErrorsAreRetried: timing, the 60-second wait of blocking callers, and what a job synchronizes are not part of this model.
- Counters, byte counts and times are unbounded whole numbers; the 2^53 bound of JavaScript numbers is not modelled.
- Row locks: every locked transaction is one atomic step.
- Parsing of swanctl and Xray statistics text, including parseXrayStats, is not part of this model; parsed values are inputs.
- tick's own re-entry flag, polling schedule and live-session cache in the worker.
- syncXray's replacement of the configuration file and the restart it causes, beyond the restarts of the collector's world.
- The router's provider probes, address rotation and its own usage counters.
- Routes, sessions, cookies, audit, schemas, cryptography, certificates, shell scripts and the rest of the frontend: plumbing over libraries or user interface.

# Verified cores of the Grafana backend

A Dafny model of the parts of Grafana's backend whose behaviour is hardest to see from the code, with
proofs of what they are for. `dafny verify dfyconfig.toml` checks all of it.

* **JSON diff** (`JsonDoc`, `DiffLines`, `JsonFormatter`, `DiffProjection`, `DiffSides`, `DiffApply`,
  `DiffPlaces`, `DiffMerge`, `DiffArrays`, `DiffMeaning`, `DiffShapes`, `DiffNumbering`, `JsonText`, `DiffReader`,
  `DiffChanges`). The formatter interleaves an old and a new dashboard in one list of lines, driven by three stacks
  and three counters. The class follows the code; `DiffLines` says what it prints, `DiffApply` what the diff library
  makes of the same deltas, `JsonText` how JSON is read from the texts of lines, and the other modules prove which
  documents are read back, and exactly when they are the old and the new one.
* **Alert scheduling** (`Ticker`, `Schedule`, `Scheduler`, `AlertClock`). The ticker as a step system, the
  scheduler and the engine as classes over shared job objects, and liveness and safety over whole runs, from
  the clock to the queue.
* **Dashboards** (`Dashboards`). Saving with optimistic concurrency, deleting, and the retention of versions.
* **Live streams** (`Hub`). The event loop over connections, subscriptions and bounded channels.
* **PBKDF2** (`Pbkdf2`). The in-place loops against section 5.2 of RFC 8018.
* **LDAP roles** (`OrgSync`). The two sync loops over the org-user table.
* **Alerts** (`AlertTable`, `AlertEval`, `AlertRuns`). Synchronising a dashboard's alerts, evaluating rules
  and explaining the result, and the life of an alert over whole runs.
* **Nested maps, gaps, tags** (`SimpleJson`, `GapFill`, `Tags`).

`Options`, `Arithmetic`, `Collections` and `Sorting` hold what several modules need.

Classes follow the code's objects: each method's contract gives the new state as a function of the old
one (`DiffEntries`, `UpdateJobs`, `Save`, `Step`, `DerivedKey`, `Synced`, `Saved`, `Handled`, `Parsed`,
`Points`), and the lemmas are about those functions and about runs of them.

Where the code and what one would expect of it differ, the model follows the code:

* The formatter reads positions in an array as indexes into the old array, the diff library as indexes into
  the array as it is by then. So an item inserted before an old one is printed instead of it, and neither
  document survives (`DiffProjection.InsertionHidesLeftItem`, `DiffMeaning.InsertionLosesRightItem`).
* The formatter refuses a Moved, and the code drops the error. So where array items change their order, which the
  library reports as moves, the item at the place something moves to is on neither side, and the moved item is
  shown only where it was (`DiffMeaning.SwapLosesItem`).
* `DiffSides.SideProjection` says what is on either side for all deltas, moves and type mismatches included.
  For deltas whose old values are at their own positions `DiffProjection.LeftProjection` says exactly when that is
  the left document, and `DiffShapes.ShapesExactly` exactly on which positions the right lines of an array are the
  new one.
* Keys and strings are printed as they are, without escapes, so a line can be read in two ways if a key has a
  quote, colon and space in it (`DiffReader.KeyLooksLikeValue`).
* A tick that queues a job does not arm it again, even at a multiple of its frequency (`Schedule.QueuedExactly`).
* A rule without conditions fires, and one whose first condition is an "or" always begins as firing
  (`AlertEval.FiringExactly`).
* A request to unsubscribe from a stream nobody has named subscribes (`Hub.SubscribedAfter`).
* Failing to find an alert's row is logged, and annotation and notification happen all the same
  (`AlertRuns.HandledExactly`).
* An operator spelled `Or` evaluates as and, and is shown as OR (`AlertEval.OperatorAgrees`).
* An update through the table mapper skips columns that are empty, zero or nil, unless they are named. So an
  empty role or an empty alert state is accepted and not stored (`OrgSync.SyncedMeets`, `AlertRuns.AcceptedMoves`).
* An alert whose frequency alone is edited keeps its old one: only name, message and settings are compared
  (`AlertTable.SavedContent`). In the dashboard JSON the settings contain the frequency as text.
* Until a datapoint of a CloudWatch response has a statistic, its series repeats the last value of the
  statistic before it (`GapFill.AbsentStatistic`); `GapFill.OwnSamples` says exactly when.
* An alert new to a dashboard can carry an id in its JSON, and saving fails if that is taken
  (`AlertTable.AlertStore.SaveAlerts`).

Preconditions say what the code needs to run at all: positive frequencies and distinct rule ids in the
scheduler, where the code would divide by zero or lose a job; a positive period in the gap loop, which would
not end; an index as the position of an Added in an array, where the code would panic; a connection that
registers once. Two describe data the properties are about: distinct panels in `SaveAlerts`, and tree-shaped
data in `SetPath`. Dashboard histories are those that the three operations produce from an empty database.

## Model

| member | source | states |
|---|---|---|
| `JsonFormatter.Formatter.Format` | grafana-ext/src/grafana/pkg/components/dashdiffs/formatter_json.go:142-175 | For any deltas, also those that end in a type mismatch or an unknown delta, the three stacks are restored, no pop or top access is out of range, and the lines appended are the numbered entries of the diff; a left document that is neither object nor array is the only error. |
| `JsonFormatter.Formatter.ProcessItem` | grafana-ext/src/grafana/pkg/components/dashdiffs/formatter_json.go:219-303 | The stacks below the top are as before, the size counter and the lines are those of the walk over the matched deltas, and the error is that of the first delta that cannot be applied. |
| `JsonFormatter.Formatter.ProcessObject` | grafana-ext/src/grafana/pkg/components/dashdiffs/formatter_json.go:200-217 | Sorted left keys first, then every Added delta in delta order. |
| `JsonFormatter.Formatter.ProcessArray` | grafana-ext/src/grafana/pkg/components/dashdiffs/formatter_json.go:177-198 | Left items first, then the Added deltas whose index the walk has not met. |
| `JsonFormatter.Formatter.PrintRecursive` | grafana-ext/src/grafana/pkg/components/dashdiffs/formatter_json.go:419-468 | Appends exactly the pretty-print of the value in key order, at the current depth, and takes one from the size counter. |
| `JsonFormatter.Formatter.CloseLine` | grafana-ext/src/grafana/pkg/components/dashdiffs/formatter_json.go:353-385 | Appends one line; counters and line numbers stay those of the entries emitted so far. |
| `JsonFormatter.Formatter.SearchDeltas` | grafana-ext/src/grafana/pkg/components/dashdiffs/formatter_json.go:305-322 | Exactly the deltas at a position, in order. |
| `JsonDoc.MeaningOfOrder` | grafana-ext/src/grafana/pkg/components/dashdiffs/formatter_json.go:470-477 | Listing every object in key order loses nothing: the ordered document stands for the original one. |
| `DiffProjection.LeftProjection` | grafana-ext/src/grafana/pkg/components/dashdiffs/formatter_json.go:177-303 | For deltas that tell the truth about the left document - old values are those at the delta's own position - its lines are exactly its pretty-print, with text, indentation and commas, if and only if every left entry with a delta has one there, before any Moved, that is not an Added. The library puts a Modified at the index in the new array, so where additions and removals before it do not balance its old value is that of another position, and such deltas are outside this row; DiffSides.SideProjection covers them. |
| `DiffProjection.InsertionHidesLeftItem` | grafana-ext/src/grafana/pkg/components/dashdiffs/formatter_json.go:270-273 | The failing case: an item inserted at the front of an array is printed instead of the old first item, which appears nowhere. |
| `DiffProjection.NestedShort` | grafana-ext/src/grafana/pkg/components/dashdiffs/formatter_json.go:245-294 | For deltas that tell the truth, where some left entry is not covered, by an addition in its place or a refused move, the left lines are strictly fewer than the document has. |
| `DiffSides.SideProjection` | grafana-ext/src/grafana/pkg/components/dashdiffs/formatter_json.go:177-303 | For all deltas, those that are refused included, the lines of either side, commas aside, are exactly the pretty-print of the document the walk makes for that side: of the entries it meets in key or index order what each delta there shows up to the first refused one, then the added ones in delta order. |
| `DiffMeaning.PatchedMeaning` | grafana-ext/src/grafana/vendor/github.com/yudai/gojsondiff/gojsondiff.go:281-308 | The document the right lines print is the one the diff library makes by applying the deltas, moves included, and the library nowhere indexes out of range, when at every depth each key of an object has at most one delta, Object and Array deltas meet objects and arrays, and the positions in each array are in step. |
| `DiffMeaning.InsertionLosesRightItem` | grafana-ext/src/grafana/pkg/components/dashdiffs/formatter_json.go:270-273 | The failing case on the right: for an item added below the end of an array, by a delta that tells the truth, the library keeps both items, and the right lines show only the new one. |
| `DiffMeaning.SwapLosesItem` | grafana-ext/src/grafana/vendor/github.com/yudai/gojsondiff/gojsondiff.go:155-173 | The failing case of a reordered array: when two items change places the library's one delta is a Moved, which the formatter refuses, and the first item is on neither side although the delta tells the truth. |
| `DiffArrays.ArraysAgree` | grafana-ext/src/grafana/vendor/github.com/yudai/gojsondiff/deltas.go:224-242 | For an array of any items, deltas in step make the library's array - removals from the highest index down, then the rest from the lowest up, a moved item being the one taken out - equal to the one the right lines print. |
| `DiffPlaces.InStepTruthful` | grafana-ext/src/grafana/vendor/github.com/yudai/gojsondiff/deltas.go:378-389 | When no item is both taken out and changed, positions are in step if and only if whatever is put in among the old items takes the place of something taken out, after an index where the formatter prints nothing for the new array nothing is added or changed unless all items from there on go, what moves was untouched and goes to where the new array has come to, and what is added past the end is listed in order. |
| `DiffShapes.ShapesExactly` | grafana-ext/src/grafana/pkg/components/dashdiffs/formatter_json.go:177-198 | Exactly when the right lines of an array can be trusted: for deltas that remove, move, add, replace or change an object inside, with at most one removal and one other delta at an index, they print the library's array for all values, and all items on which the changes inside agree, if and only if the positions are in step. |
| `DiffNumbering.PickProjects` | grafana-ext/src/grafana/pkg/components/dashdiffs/formatter_json.go:353-372 | The lines with a number in one column are that side's entries in order, numbered 1, 2, 3, ... without a gap. |
| `DiffNumbering.LineNumbers` | grafana-ext/src/grafana/pkg/components/dashdiffs/formatter_json.go:356-376 | LineNum is 1, 2, 3, ... over all lines. |
| `DiffNumbering.ReadBackLeft` | grafana-ext/src/grafana/pkg/components/dashdiffs/formatter_json.go:142-303 | For deltas that tell the truth about the left document, its pretty-print is read back exactly, with the numbers 1, 2, 3, ..., from the lines with a left number if and only if every entry with a delta is covered. |
| `DiffNumbering.ReadBackSide` | grafana-ext/src/grafana/pkg/components/dashdiffs/formatter_json.go:142-303 | For all deltas, the pretty-print of either side's document is read back, with the numbers 1, 2, 3, ..., from the lines with a number in its column, up to a trailing comma. |
| `DiffNumbering.IndentIsDepth` | grafana-ext/src/grafana/pkg/components/dashdiffs/formatter_json.go:336-433 | Whatever the deltas, brackets balance, each line's indent is its nesting depth, and its text is the key and the value its fields record, nil as the string "null". |
| `DiffReader.PrintIsRead` | grafana-ext/src/grafana/pkg/components/dashdiffs/formatter_json.go:387-468 | A reader that knows only the grammar - indentation, quotes, colons, brackets, commas - reads from the texts of a pretty-print the document it was printed from: every key, leaf and order, and each comma where it belongs, for keys without a quote, colon and space in a row and renderings that look like nothing else. |
| `DiffReader.KeyLooksLikeValue` | grafana-ext/src/grafana/pkg/components/dashdiffs/formatter_json.go:387-417 | Why the condition on keys: a key with a quote, colon and space in it and a string with them print the same line, since neither is escaped. |
| `DiffReader.LeftIsRead` | grafana-ext/src/grafana/pkg/components/dashdiffs/formatter_json.go:142-303 | For deltas that tell the truth about a legible left document, the texts of the lines with a left number are read as that document, with every comma in place, if and only if every entry with a delta is covered. |
| `DiffReader.SideIsRead` | grafana-ext/src/grafana/pkg/components/dashdiffs/formatter_json.go:142-303 | For all deltas, the texts of the lines with a number in one column are read, commas aside, as the document the walk makes for that side. |
| `DiffReader.RightIsRead` | grafana-ext/src/grafana/vendor/github.com/yudai/gojsondiff/gojsondiff.go:281-308 | Where the formatter and the library agree, the texts of the lines with a right number are read as the document the library makes. |
| `DiffChanges.ItemMarks` | grafana-ext/src/grafana/pkg/components/dashdiffs/formatter_json.go:219-303 | What the change of a line says: an entry without a delta is read from unchanged lines; of one with deltas, each in order up to the first that does not fit gives added lines read as the added value, deleted lines read as the deleted one, old lines and then new lines read as the two values of a change, or brackets of both documents around a nested change. |
| `DiffChanges.RefusedExactly` | grafana-ext/src/grafana/pkg/components/dashdiffs/formatter_json.go:225-299 | The error of an entry is that of the first delta there that does not fit: a move is unknown, nested changes of another type are a type mismatch. |
| `Ticker.TicksAreConsecutive` | grafana-ext/src/grafana/pkg/services/alerting/ticker.go:44-60 | On every run, under any offset changes, the ticks are the consecutive seconds after the start: none dropped, repeated, or received before it is old enough. |
| `Ticker.CatchUp` | grafana-ext/src/grafana/pkg/services/alerting/ticker.go:44-60 | Left alone, the ticker sends exactly the ticks that are due and then waits. |
| `Schedule.OffsetBounds` | grafana-ext/src/grafana/pkg/services/alerting/scheduler.go:40-44 | 1 <= Offset <= max(1, Frequency - 1). |
| `Schedule.OffsetsSpread` | grafana-ext/src/grafana/pkg/services/alerting/scheduler.go:40-44 | Of n rules of one frequency at most 2 * ceil(1000 / step) share an offset, step being the milliseconds between two rules. |
| `Schedule.UpdateMeets` | grafana-ext/src/grafana/pkg/services/alerting/scheduler.go:23-49 | With distinct ids there is exactly one job per rule after a refresh; known jobs keep their flags, new ones start clean; the i-th of n rules has as offset the second in which i n-th parts of its period end, in whole milliseconds, and 1 for the first. |
| `Scheduler.SchedulerImpl.Update` | grafana-ext/src/grafana/pkg/services/alerting/scheduler.go:23-49 | The loop over shared job objects computes that refresh, and a known job stays the same object. |
| `Scheduler.SchedulerImpl.Tick` | grafana-ext/src/grafana/pkg/services/alerting/scheduler.go:51-73 | Each job is visited once, whatever the map order; the jobs queued are exactly those due, each once; a queued job is neither running nor paused, was waiting and no longer is, and the second is a multiple of its offset. |
| `Schedule.QueuedExactly` | grafana-ext/src/grafana/pkg/services/alerting/scheduler.go:51-73 | On every run, whatever happens to offsets, states and rules: a job is queued at exactly the ticks whose second is a multiple of its offset, at which it is neither paused nor running and has been armed, by a tick at a multiple of its frequency that did not queue it, since it was last queued. |
| `Schedule.QueuedAtOffset` | grafana-ext/src/grafana/pkg/services/alerting/scheduler.go:59-69 | A steady job armed at a multiple of its frequency is queued at the first later second that is a multiple of its offset, and not before. |
| `Schedule.RulesInForce` | grafana-ext/src/grafana/pkg/services/alerting/engine.go:69-77 | From a tick whose index is a multiple of ten to the next, the jobs are exactly those of the rules read then, with their frequencies and the offsets of their places in the list. |
| `Scheduler.Engine.HandleTick` | grafana-ext/src/grafana/pkg/services/alerting/engine.go:63-77 | One round of the loop is a refresh on every tenth tick followed by a tick, and leaves every job tickable. |
| `Schedule.StaysHealthy` | grafana-ext/src/grafana/pkg/services/alerting/scheduler.go:59-65 | Refreshing, ticking and whatever runs between two ticks never leave a job that would make Tick divide by zero. |
| `Schedule.QueuedInEveryWindow` | grafana-ext/src/grafana/pkg/services/alerting/scheduler.go:51-73 | Liveness: an idle, unpaused job with unchanged offset and frequency is queued in every window of Frequency + Offset ticks. |
| `Schedule.UnchangedRulesQueued` | grafana-ext/src/grafana/pkg/services/alerting/engine.go:69-77 | The same under refreshes that keep returning rules with the same ids and frequencies, whatever the states of the other rules. |
| `AlertClock.TickerDrivesEngine` | grafana-ext/src/grafana/pkg/services/alerting/engine.go:69-77 | Whatever the clock, the receiver and the offset do, the engine sees consecutive Unix seconds. |
| `AlertClock.QueuedOnEveryRun` | grafana-ext/src/grafana/pkg/services/alerting/engine.go:56-79 | End to end: on every run of the ticker, with an engine that is about to refresh, as at its start, or has refreshed, and rules whose ids and frequencies do not change, a rule is queued at least once in any Frequency + Offset ticks in which it is neither paused nor running. |
| `AlertClock.SpacedOnEveryRun` | grafana-ext/src/grafana/pkg/services/alerting/engine.go:56-79 | And between two queueings of a job whose frequency stays f the ticker has sent a multiple of f. |
| `Schedule.MultipleBetweenQueueings` | grafana-ext/src/grafana/pkg/services/alerting/scheduler.go:54-72 | Safety: between two queueings of a job whose frequency stays f there is a tick that is a multiple of f, whatever else changes. |
| `Dashboards.Store.SaveDashboard` | grafana-ext/src/grafana/pkg/services/sqlstore/dashboard.go:25-133 | The step-by-step save does what the save function says, keeps the history invariant, changes nothing on an error, and on success the dashboard it returns - the one with the title, or else the one named, or else a new one - has the command's org, data and non-empty slug under the next version, one version row more says the same with the command's message and restored version, and all other rows are as they were. |
| `Dashboards.SaveOutcome` | grafana-ext/src/grafana/pkg/services/sqlstore/dashboard.go:32-85 | Exactly when a save succeeds, and which error it fails with otherwise, in terms of the rows it finds. |
| `Dashboards.VersionsCarrySaves` | grafana-ext/src/grafana/pkg/services/sqlstore/dashboard.go:95-111 | On every run the data, message and restored version of each version row are those of the one save of the run that made that version. |
| `Dashboards.Store.DeleteDashboard` | grafana-ext/src/grafana/pkg/services/sqlstore/dashboard.go:248-280 | A dashboard with the slug and the org, an empty one being no condition, goes with all its versions, and no other row changes; an error means that none matched. |
| `Dashboards.Store.DeleteExpiredVersions` | grafana-ext/src/grafana/pkg/services/sqlstore/dashboard_version.go:66-103 | Of each dashboard the newest version stays, and those less than K versions behind it, K being the setting, also if it is zero or negative; no row that stays changes. |
| `Dashboards.GetVersionIdsToDelete` | grafana-ext/src/grafana/pkg/services/sqlstore/dashboard_version.go:112-134 | The ids returned are exactly those of rows whose rank within their dashboard's run exceeds the number to keep. |
| `Dashboards.RankIsAge` | grafana-ext/src/grafana/pkg/services/sqlstore/dashboard_version.go:76-83 | In the sorted selection a row's rank is its distance from the dashboard's current version. |
| `Dashboards.SaveKeepsHistory` | grafana-ext/src/grafana/pkg/services/sqlstore/dashboard.go:32-111 | Every successful save keeps (org, slug) unique, versions contiguous up to the current one, the last row equal to the current data, and each parent one below. |
| `Dashboards.DeleteKeepsHistory` | grafana-ext/src/grafana/pkg/services/sqlstore/dashboard.go:258-265 | So does a deletion. |
| `Dashboards.CleanUpKeepsNewest` | grafana-ext/src/grafana/pkg/services/sqlstore/dashboard_version.go:89-97 | A cleanup keeps a version row if and only if it is among the newest K of its dashboard. |
| `Dashboards.CleanUpKeepsHistory` | grafana-ext/src/grafana/pkg/services/sqlstore/dashboard_version.go:66-103 | A cleanup keeps the history invariant. |
| `Dashboards.HistoryOnEveryRun` | grafana-ext/src/grafana/pkg/services/sqlstore/dashboard.go:25-133 | The history invariant holds after every sequence of saves, deletions and cleanups. |
| `Dashboards.VersionsOnlyGrow` | grafana-ext/src/grafana/pkg/services/sqlstore/dashboard.go:41-85 | Over any run a dashboard's version never goes down and a deleted id never comes back. |
| `Dashboards.SaveRaises` | grafana-ext/src/grafana/pkg/services/sqlstore/dashboard.go:32-85 | A non-overwriting save by id succeeds only on the version it was read at, and raises it by one. |
| `Dashboards.NoLostUpdates` | grafana-ext/src/grafana/pkg/services/sqlstore/dashboard.go:41-48 | Of any saves without overwrite that carry one dashboard id and one version, at most one ever succeeds. |
| `Dashboards.SaveAgain` | grafana-ext/src/grafana/pkg/services/sqlstore/dashboard.go:50-53 | Saving again with the version the last save returned succeeds if and only if that save did not make the dashboard a plugin's. |
| `Hub.EventLoop.Handle` | grafana-ext/src/grafana/pkg/api/live/hub.go:43-102 | Each case of the select does exactly one step of the hub, whatever the order in which the subscribers are visited; the rows below say what the steps do. |
| `Hub.RegisterConnects` | grafana-ext/src/grafana/pkg/api/live/hub.go:48-50 | After registering a connection is listed with an open, empty channel, and nothing else has changed. |
| `Hub.UnregisterCloses` | grafana-ext/src/grafana/pkg/api/live/hub.go:52-57 | After unregistering it is not listed and its channel is closed; what is in there stays, and nothing else has changed. |
| `Hub.DeliveredTo` | grafana-ext/src/grafana/pkg/api/live/hub.go:77-99 | Of a listed subscriber with fewer than 256 messages waiting, a message is appended; one with 256 is disconnected, closed and unsubscribed; all other connections and their channels are as they were, and those not listed are no longer subscribed. |
| `Hub.TakeIsInOrder` | grafana-ext/src/grafana/pkg/api/live/conn.go:105-115 | The writer takes the oldest message from a connection's channel, and nothing else changes. |
| `Hub.ListedExactly` | grafana-ext/src/grafana/pkg/api/live/hub.go:43-102 | On every run a connection is listed if and only if it has registered and has since neither unregistered nor been evicted by a message to its full channel. |
| `Hub.NeverPanics` | grafana-ext/src/grafana/pkg/api/live/hub.go:48-100 | On every run no channel is closed twice or sent to after closing, and the listed connections are exactly those with an open channel. |
| `Hub.DeliveredExactly` | grafana-ext/src/grafana/pkg/api/live/hub.go:77-99 | What a connection's channel has carried is, in publish order and exactly once, each message published while it was connected, subscribed and had room. |
| `Hub.DeliveryLeavesConnected` | grafana-ext/src/grafana/pkg/api/live/hub.go:85-99 | After a delivery the stream's subscribers are all connected and have the message, full ones are disconnected and closed, other streams are untouched. |
| `Hub.SubscribedAfter` | grafana-ext/src/grafana/pkg/api/live/hub.go:59-74 | Afterwards the connection is subscribed unless removal was asked of a stream that exists; removal from an unknown stream subscribes; nothing else changes. |
| `Hub.StreamsStay` | grafana-ext/src/grafana/pkg/api/live/hub.go:69-72 | Once named, a stream stays known on every run. |
| `Hub.ClosedForGood` | grafana-ext/src/grafana/pkg/api/live/hub.go:52-57 | A closed channel stays closed, carries nothing more, and its connection is never listed again. |
| `Pbkdf2.PBKDF2` | grafana-ext/src/grafana/pkg/util/encoding.go:43-78 | Returns the derived key of section 5.2 of RFC 8018 for every salt, key length and iteration count of one or more; fewer act as one. |
| `Pbkdf2.KeyAt` | grafana-ext/src/grafana/pkg/util/encoding.go:51-75 | Octet k of block b of the key is the XOR of octet k of as many hashes as there are iterations, each the hash of the one before, the first that of the salt and the four octets of b + 1. |
| `Pbkdf2.IntIs` | grafana-ext/src/grafana/pkg/util/encoding.go:57-60 | The four octets, the most significant first, make up the block number modulo 2^32. |
| `Pbkdf2.Iterate` | grafana-ext/src/grafana/pkg/util/encoding.go:66-75 | With T a window of the key buffer and U overwritten in place, T becomes the XOR of all iterates and the rest of the buffer is untouched. |
| `Pbkdf2.Block` | grafana-ext/src/grafana/pkg/util/encoding.go:51-75 | Appends T_i to the key in place: dk stays in the same array, with its length grown by one hash. |
| `Pbkdf2.Append` | grafana-ext/src/grafana/pkg/util/encoding.go:62-71 | Appending writes in place exactly when there is room and moves to a new array otherwise. |
| `OrgSync.OrgStore.SyncOrgRoles` | grafana-ext/src/grafana/pkg/login/ldap.go:236-304 | Succeeds if and only if every change leaves its org an admin, and then reaches the target table; even an aborted sync takes no org's last admin and touches no other user. |
| `OrgSync.OrgStore.SyncOrg` | grafana-ext/src/grafana/pkg/login/ldap.go:250-280 | One org: the first mapping that matches decides; update, removal or nothing. |
| `OrgSync.SyncedMeets` | grafana-ext/src/grafana/pkg/login/ldap.go:249-301 | In every existing org the user ends with the role of the first mapping whose group they belong to, and is in no other org; the only exception is an empty role given to a user who had another. |
| `OrgSync.SyncTwice` | grafana-ext/src/grafana/pkg/login/ldap.go:236-304 | A second sync succeeds and changes nothing. |
| `OrgSync.OrgStore.AddOrgUser` | grafana-ext/src/grafana/pkg/services/sqlstore/org_users.go:19-45 | Adds a row in an existing org, or fails on a member or an unknown org and changes nothing. |
| `OrgSync.OrgStore.UpdateOrgUser` | grafana-ext/src/grafana/pkg/services/sqlstore/org_users.go:47-68 | Rolled back when it would leave the org without an admin. |
| `OrgSync.OrgStore.RemoveOrgUser` | grafana-ext/src/grafana/pkg/services/sqlstore/org_users.go:89-99 | Rolled back when it would leave the org without an admin. |
| `OrgSync.OrgStore.ValidateOneAdminLeftInOrg` | grafana-ext/src/grafana/pkg/services/sqlstore/org_users.go:101-113 | Fails exactly when no row of the org has the role Admin. |
| `OrgSync.AllowedExactly` | grafana-ext/src/grafana/pkg/services/sqlstore/org_users.go:47-68 | A change of the sync is allowed if and only if it is none, or a row of the org has the role Admin afterwards. |
| `OrgSync.OrgStore.SearchGroup` | grafana-ext/src/grafana/pkg/login/ldap_user.go:12-23 | True exactly for the star and for a group in the user's list. |
| `OrgSync.FirstMatchExactly` | grafana-ext/src/grafana/pkg/login/ldap.go:249-271 | The role the sync goes by is that of the first mapping for the org whose group is the star or in the user's list; there is none if no mapping is. |
| `AlertTable.AlertStore.SaveAlerts` | grafana-ext/src/grafana/pkg/services/sqlstore/alert.go:141-158 | Fails, and changes nothing, if and only if an id given to a new alert - the one in its JSON, or the next automatic one - is in use or was given to an earlier new one; otherwise reaches a saved table. |
| `AlertTable.TakenIdClashes` | grafana-ext/src/grafana/pkg/services/sqlstore/alert.go:182-193 | The failing case: a new alert whose JSON carries the id of another dashboard's alert. |
| `AlertTable.NextIdClashes` | grafana-ext/src/grafana/pkg/services/sqlstore/alert.go:182-193 | Another: a new alert whose JSON carries the id the new alert before it was just given. |
| `AlertTable.AlertStore.UpsertAlerts` | grafana-ext/src/grafana/pkg/services/sqlstore/alert.go:160-202 | Every old row with a definition is merged with it, every definition without a row gets one new row. |
| `AlertTable.AlertStore.DeleteMissingAlerts` | grafana-ext/src/grafana/pkg/services/sqlstore/alert.go:204-221 | Removes exactly the dashboard's rows without a definition, with their annotations. |
| `AlertTable.SavedPanels` | grafana-ext/src/grafana/pkg/services/sqlstore/alert.go:141-158 | After a sync the dashboard has an alert for exactly the panels of the command, each once. |
| `AlertTable.SavedRow` | grafana-ext/src/grafana/pkg/services/sqlstore/alert.go:160-221 | Surviving rows keep id, state, change count and error, exactly the rows of removed panels go, with their annotations and no others, new rows are pending, other dashboards' rows are as they were. |
| `AlertTable.GivenExactly` | grafana-ext/src/grafana/pkg/services/sqlstore/alert.go:182-193 | The ids of the new alerts, in order: the one in the JSON, or else the least automatic id above all those given before. |
| `AlertTable.SavedContent` | grafana-ext/src/grafana/pkg/services/sqlstore/alert.go:173-197 | After a sync an alert has its definition's message, settings and name, an empty name keeping the old one; its frequency follows exactly unless nothing else changed or it is zero. |
| `AlertTable.SavedTwice` | grafana-ext/src/grafana/pkg/services/sqlstore/alert.go:141-221 | Running the sync again cannot fail, and changes nothing. |
| `AlertTable.AlertStore.SetAlertState` | grafana-ext/src/grafana/pkg/services/sqlstore/alert.go:234-266 | Refuses a missing row, a paused row and an unchanged state, in this order; otherwise sets the state, if it is not empty, and the error, counts the change, and changes nothing else. |
| `AlertTable.AlertStore.PauseAlert` | grafana-ext/src/grafana/pkg/services/sqlstore/alert.go:268-296 | Exactly the named alerts become paused or pending, and nothing else about any alert changes; an empty list is an error. |
| `AlertTable.AlertStore.PauseAllAlerts` | grafana-ext/src/grafana/pkg/services/sqlstore/alert.go:298-314 | Every alert becomes paused, or every alert pending; no alert comes, goes or changes otherwise. |
| `AlertTable.AllPausedAccepts` | grafana-ext/src/grafana/pkg/services/sqlstore/alert.go:234-314 | Afterwards a change of state is accepted if and only if the alerts were unpaused, the alert exists and the state is not pending; pausing all before leaves no trace. |
| `AlertEval.EvalHandler.Eval` | grafana-ext/src/grafana/pkg/services/alerting/eval_handler.go:25-100 | Result, no-data flag, matches and text are the folds over the conditions evaluated before the first error. With an error the state is the rule's error state, or the previous one under keep_state. Without one, for readable conditions, it is alerting if the text reads true, ok if it reads false and data was found, and otherwise the rule's no-data state, or the previous one under keep_state. |
| `AlertEval.FiringExactly` | grafana-ext/src/grafana/pkg/services/alerting/eval_handler.go:39-46 | A rule fires if and only if every condition that does not fire, and is not an "or", is followed by an "or" that fires. |
| `AlertEval.NoDataExactly` | grafana-ext/src/grafana/pkg/services/alerting/eval_handler.go:26-46 | No data is reported if and only if every condition that found some, and is not an "or", is followed by an "or" that found none. |
| `AlertEval.MatchedConcat` | grafana-ext/src/grafana/pkg/services/alerting/eval_handler.go:57 | The matches are those of the conditions evaluated, in their order. |
| `AlertEval.PrefixExactly` | grafana-ext/src/grafana/pkg/services/alerting/eval_handler.go:29-37 | The conditions evaluated are those before the first that errs, and the error is its error. |
| `AlertEval.TextSpellsOut` | grafana-ext/src/grafana/pkg/services/alerting/eval_handler.go:51-55 | The text names every condition evaluated, in order, with its operator in upper case and whether it fires; of the first it says whether the rule would fire with that one alone. |
| `AlertEval.TextAgrees` | grafana-ext/src/grafana/pkg/services/alerting/eval_handler.go:25-62 | For every non-empty evaluated prefix, parsing and evaluating the bracket text gives the value printed after the equals sign. |
| `AlertEval.OperatorAgrees` | grafana-ext/src/grafana/pkg/services/alerting/eval_handler.go:43-52 | The text can be trusted for an operator if and only if it is one word and not a differently spelled "or". |
| `AlertEval.NothingEvaluated` | grafana-ext/src/grafana/pkg/services/alerting/eval_handler.go:30-57 | When the first condition errs, the text is empty and the value printed is true. |
| `AlertRuns.ResultHandler.Handle` | grafana-ext/src/grafana/pkg/services/alerting/result_handler.go:30-95 | The effects and the table are those of the verdict; only the refusal of a paused row is returned as an error. |
| `AlertRuns.LeavesPaused` | grafana-ext/src/grafana/pkg/services/sqlstore/alert.go:234-314 | On every run of saves, deletions, pauses and evaluations, an alert that was paused and is not any more was unpaused in between, or its row was removed. |
| `AlertRuns.ChangesAreCounted` | grafana-ext/src/grafana/pkg/services/sqlstore/alert.go:251-252 | While an alert has a row, its change count grows by exactly the changes accepted for it. |
| `AlertRuns.AcceptedMoves` | grafana-ext/src/grafana/pkg/services/sqlstore/alert.go:243-264 | An accepted change moves the row to the new state if and only if that state is not empty, is counted, keeps the error and changes nothing else. |
| `AlertRuns.EmptyStateKeepsRow` | grafana-ext/src/grafana/pkg/services/alerting/eval_handler.go:84-96 | The exception: a no-data state of "" is accepted, counted, annotated and notified, and the row keeps its state. |
| `AlertRuns.LogOnEveryRun` | grafana-ext/src/grafana/pkg/services/alerting/result_handler.go:43-92 | On every run each annotation directly follows an accepted change, or one lost for want of a row; each notification directly follows its annotation and is never for pending to ok; and no accepted change lacks its annotation and notification. |
| `AlertRuns.HandledExactly` | grafana-ext/src/grafana/pkg/services/alerting/result_handler.go:44-92 | A change is lost exactly when states differ and the row is missing, accepted exactly when they differ and the row is neither paused nor already there; every such change, and nothing else, is annotated with its two states, and notified unless it is from pending to ok. |
| `AlertRuns.KeepStateIsSilent` | grafana-ext/src/grafana/pkg/services/alerting/eval_context.go:74-84 | With "keep state" an evaluation that errs or finds no data changes, annotates and notifies nothing. |
| `SimpleJson.Json.SetPath` | grafana-ext/src/grafana/pkg/components/simplejson/simplejson.go:90-125 | On tree-shaped data the path then leads to the value, every path that is neither a prefix nor an extension of it leads where it did, maps on the way stay in place and only what was no map is replaced; a tree that shares no map with what stays is grafted whole and the result is a tree. |
| `SimpleJson.Json.SetTwice` | grafana-ext/src/grafana/pkg/components/simplejson/simplejson.go:90-125 | Two writes to a path promise all that the last one alone promises, at incomparable paths, on the way and beyond, and reading the path gives its value. |
| `SimpleJson.Json.GetPath` | grafana-ext/src/grafana/pkg/components/simplejson/simplejson.go:155-161 | The value the path leads to, nil where it leaves the maps. |
| `SimpleJson.Json.Grow` | grafana-ext/src/grafana/pkg/components/simplejson/simplejson.go:106-118 | Putting a new empty map under a key changes what that one path leads to and nothing else. |
| `SimpleJson.PutEffect` | grafana-ext/src/grafana/pkg/components/simplejson/simplejson.go:124 | Writing one key of one map of a tree changes only the paths through that key. |
| `SimpleJson.Json.Set` | grafana-ext/src/grafana/pkg/components/simplejson/simplejson.go:80-86 | Nothing happens to what is no map; in a tree the key then leads to the value and what it holds, and no path beside it leads elsewhere. |
| `SimpleJson.Json.Del` | grafana-ext/src/grafana/pkg/components/simplejson/simplejson.go:128-134 | Nothing happens to what is no map; in a tree every path through the key then leads nowhere, and no other path leads elsewhere. |
| `GapFill.ParseResponse` | grafana-ext/src/grafana/pkg/tsdb/cloudwatch/cloudwatch.go:314-368 | One series for each statistic over the datapoints sorted by time, with distinct times strictly increasing by at most a period; its non-null points are one for each datapoint, and show the field the statistic names, for five names, or the extended statistic of a percentile; what a datapoint lacks is shown as the value before, at the first one the last of the series before. |
| `GapFill.DataKept` | grafana-ext/src/grafana/pkg/tsdb/cloudwatch/cloudwatch.go:332-362 | Filling gaps loses, repeats and reorders no sample. |
| `GapFill.NullsExactly` | grafana-ext/src/grafana/pkg/tsdb/cloudwatch/cloudwatch.go:351-358 | The nulls are exactly at last + k * Period strictly before the next sample. |
| `GapFill.PointsSteady` | grafana-ext/src/grafana/pkg/tsdb/cloudwatch/cloudwatch.go:350-362 | For strictly increasing samples the times strictly increase, by at most a period. |
| `GapFill.OwnSamples` | grafana-ext/src/grafana/pkg/tsdb/cloudwatch/cloudwatch.go:333-348 | A sample is the response's own - independent of the value the statistic before left over - if and only if its datapoint or one before it has a value the loop takes for the statistic. |
| `GapFill.AbsentStatistic` | grafana-ext/src/grafana/pkg/tsdb/cloudwatch/cloudwatch.go:317-348 | The failing case: until such a datapoint, and throughout if there is none, the statistic shows the leftover value. |
| `Tags.ParseTagPairs` | grafana-ext/src/grafana/pkg/models/tags.go:13-37 | Trimmed non-empty keys, no colon in a key or value, no pair twice. |
| `Tags.ContainsTag` | grafana-ext/src/grafana/pkg/models/tags.go:39-46 | Whether the pair is in the list. |
| `Tags.JoinTagPairs` | grafana-ext/src/grafana/pkg/models/tags.go:48-60 | One string for each tag, in order: key, colon and value, or the key alone if the value is empty; normal tags are parsed back from them. |
| `Tags.ParsedExactly` | grafana-ext/src/grafana/pkg/models/tags.go:18-34 | A tag is in the result if and only if some string of the list parses to it and its key is not empty. |
| `Tags.ParseTagExactly` | grafana-ext/src/grafana/pkg/models/tags.go:18-26 | Of one string the key is the text before the first colon and the value that between the first and the second, both without the blanks around them; without a colon it is all key. |
| `Tags.ParsedInOrder` | grafana-ext/src/grafana/pkg/models/tags.go:18-34 | The tags come in the order of the first strings they are parsed from. |
| `Tags.RoundTripExactly` | grafana-ext/src/grafana/pkg/models/tags.go:13-60 | A list of tags comes back from its strings if and only if it is in normal form. |
| `Tags.ParseAgain` | grafana-ext/src/grafana/pkg/models/tags.go:13-60 | Parse(Join(Parse(xs))) == Parse(xs) for every list of strings. |

## Left out

- Computing a diff: the deltas are an input. A TextDiff carries its new value, the text patch that yields it is not part of this model; where several deltas of an array have one index the library's sort leaves their order open, and `DiffApply` takes one.
- DiffSides.SideProjection: commas of right lines are not claimed, because the size counter counts left entries only and a comma can be missing or extra once entries are added or deleted.
- DiffProjection.LeftProjection: deltas whose old value is not that of their own index, as the library makes them after additions and removals that do not balance (gojsondiff.go:317), are outside it; `DiffSides.SideProjection` says what their left lines are, but not exactly on which positions that is the left document.
- DiffMeaning.PatchedMeaning: needs one delta for each key of an object; with several the printed lines repeat the key.
- DiffShapes.ShapesExactly: for arrays directly inside an array being in step at both depths is sufficient (`DiffMeaning.PatchedMeaning`); that it is necessary is not proved for them, nor for Object deltas that agree with no object or change none.
- DiffReader.PrintIsRead: for keys and renderings that are not legible a line can be read in two ways (`DiffReader.KeyLooksLikeValue`), and nothing is claimed.
- Rendering the lines as HTML, and the rendering of numbers and booleans, which is kept as an opaque string.
- The basic diff built on the line list (formatter_basic.go).
- Ticker.TicksAreConsecutive: the goroutine is a step system on values and not a loop on a channel, because its interleaving with the clock, the receiver and updateOffset is the point.
- Floating point: offsets use integer division, samples are integers, times in series are whole seconds.
- The bounded queue between scheduler and dispatcher: a full queue only delays a tick. Timeouts, cancellation and panic recovery in processJob, and data races on the Running flag; a job may be queued twice before it starts.
- Schedule.QueuedInEveryWindow: the job has to stay idle and unpaused with one offset and frequency; UnchangedRulesQueued derives the last two from unchanged rule ids and frequencies.
- SQL text, drivers, transactions beyond rollback on error, and the retry on a locked database.
- Tags, stars, playlist items and annotations of dashboards, and their alerts on deletion, are not in the tables of Dashboards.
- Hub.EventLoop.Handle: registering and making the connection's channel are one step, and writePump is the step that takes a message; a delivery to all subscribers of a stream is one step too, so which of them have room is judged at once, while writePump could drain a channel during the loop; connections are names with a map to their channels.
- Pbkdf2.PBKDF2: the keyed hash is any function with results of one fixed length, keyLen is not negative, and the block number is taken modulo 2^32 as its four octets are.
- OrgSync.OrgStore.SyncOrgRoles: memberships are in existing orgs, and the table has at most one row for an org and a user.
- AlertTable.AlertStore.SaveAlerts: alerts always have settings, as one opaque text; timestamps, severity and the ids written back into the command are not modelled, and the alerts' dashboard is the command's.
- AlertRuns.ResultHandler.Handle: annotations and notifications are entries of a log in the order in which they are attempted; how they are stored and sent is not part of this model, and neither are metrics.
- AlertEval.TextAgrees: upper case is that of ASCII letters.
- AlertEval.EvalHandler.Eval: what a condition does is an input, one outcome for each condition.
- SimpleJson.Json.SetPath: claims nothing when two paths lead to one map, where a write shows through both. Values other than maps are opaque.
- GapFill.ParseResponse: the values of a datapoint are always present, and sorting is by insertion.
- HTTP handlers, authentication, LDAP connections, quotas, preferences, the message bus and all front-end code.

# ksm session bookkeeping in Dafny

This project models the core of **ksm**, a command-line session manager for the kitty terminal, and proves properties of that model.
ksm groups kitty tabs into named *sessions*, one per project. It finds a session's tabs in a `kitten @ ls` listing, switches and cycles between sessions, remembers each session's last-active tab, navigates within a session, renames and closes session tabs, and resolves the project configuration that feeds it.

Everything is modelled against an executor whose replies are inputs:

- `Executor.Executor` stands for the `CommandExecutor` interface. Each operation's reply is a fixed function of the command, given when the executor is built. Every call is appended, in order, to `calls`.
- The session layer (`Kitty.Kitty`) is a class over that executor. Each method is specified by an outcome function giving its result, the calls it makes, and, for switching and tracking, the last-active map afterwards. Lemmas about those functions state what the tool promises.
- The last-active tracker is a class over a `map<string, nat>`.
- Loops that only read a listing (collecting, merging, filtering, counting, sorting) are methods proved equal to specification functions in `SessionTabs`, `SessionListing` and `SessionScan`.
- The in-memory test executor `MockExecutor` is modelled as a class with its own call logs and last-in-first-out response queues.
- The command records of `kitty-lib` are datatypes with builder functions. The argument vectors the real executor hands to `kitten` are proved to read back as exactly the fields that were set.
- Configuration is modelled on values: profile chains (`extends`), later-wins overlays, the key-to-project join, auto-profile rules and git-project discovery over a directory tree given as a datatype.
- The older top-level copy of the tool (`src/`) is covered where it differs: its command records, its JSON config's keyed projects and directory expansion. Its key lookup and selection-line parser share the newer models.

The environment, host name, regular-expression matching, globbing, the directory tree, the answer typed at a confirmation prompt and the title parser `parse_session_from_title` are parameters.

## Model

| member | source | states |
|---|---|---|
| `KittyTypes.SuccessResult` | kitty-lib/src/types.rs:63-69 | `success(d)` is successful with no error message, and converting it yields `Ok(d)` |
| `KittyTypes.SuccessEmpty` | kitty-lib/src/types.rs:71-77 | `success_empty()` is successful with neither payload nor message, and converting it fails with "Command succeeded but no data returned" |
| `KittyTypes.ErrorResult` | kitty-lib/src/types.rs:79-85 | `error(m)` is a failure without payload, and converting it fails with `m` |
| `KittyTypes.IntoResultOk` | kitty-lib/src/types.rs:87-96 | `into_result` succeeds exactly for successful records that carry a payload, and then yields that payload |
| `KittyTypes.IntoResultFailure` | kitty-lib/src/types.rs:97-102 | a failed record converts to its own message, or to "Command failed" when it has none |
| `Ls.New` | kitty-lib/src/commands/ls.rs:7-19 | `new()` and `Default` carry no match argument and do not ask for tab matching |
| `Ls.MatchEnv` | kitty-lib/src/commands/ls.rs:21-24 | `match_env(k, v)` sets the match argument to "env:k=v" and keeps the tab-matching flag |
| `Ls.MatchTabEnv` | kitty-lib/src/commands/ls.rs:26-30 | `match_tab_env(k, v)` sets "env:k=v" and turns tab matching on |
| `Ls.MatchTabTitle` | kitty-lib/src/commands/ls.rs:32-36 | `match_tab_title(p)` sets "title:p" and turns tab matching on |
| `Ls.MatchArgumentsRead` | kitty-lib/src/commands/ls.rs:21-36 | the argument each builder writes is read by the reference reader of the three `--match` forms the program writes as exactly the env or title query asked for |
| `Ls.LaterMatchOverwrites` | kitty-lib/src/commands/ls.rs:22-33 | a later match builder replaces the earlier match argument |
| `Launch.New` | kitty-lib/src/commands/launch.rs:10-25 | `new()` and `Default` open a "tab" with no cwd, environment or title and no session inheritance |
| `Launch.LaunchType` | kitty-lib/src/commands/launch.rs:27-30 | `launch_type` sets the type and leaves every other field unchanged |
| `Launch.Cwd` | kitty-lib/src/commands/launch.rs:32-35 | `cwd` sets the working directory and leaves every other field unchanged |
| `Launch.Env` | kitty-lib/src/commands/launch.rs:37-40 | `env(k, v)` stores the single assignment "k=v", replacing any earlier one, and leaves every other field unchanged |
| `Launch.TabTitle` | kitty-lib/src/commands/launch.rs:42-45 | `tab_title` sets the title and leaves every other field unchanged |
| `Launch.InheritCurrentSession` | kitty-lib/src/commands/launch.rs:47-51 | `inherit_current_session` turns inheritance on and leaves every other field unchanged |
| `Launch.EnvAssignmentReads` | kitty-lib/src/commands/launch.rs:37-40 | the stored assignment splits back at its first '=' into the variable and its value |
| `Launch.BuildersIndependent` | kitty-lib/src/commands/launch.rs:27-51 | setters of different fields commute, and of two `env` calls the second wins |
| `NavigateTab.New` | kitty-lib/src/commands/navigate_tab.rs:21-27 | `new()` moves forward, in no particular session, wrapping |
| `NavigateTab.Default` | kitty-lib/src/commands/navigate_tab.rs:14-18 | `Default` equals `new()` |
| `NavigateTab.NextCommand` | kitty-lib/src/commands/navigate_tab.rs:29-35 | `next()` moves forward, in no particular session, wrapping |
| `NavigateTab.PreviousCommand` | kitty-lib/src/commands/navigate_tab.rs:37-43 | `previous()` moves backward, in no particular session, wrapping |
| `NavigateTab.WithSession` | kitty-lib/src/commands/navigate_tab.rs:45-48 | `with_session` names the session and keeps direction and wrap |
| `NavigateTab.WithWrap` | kitty-lib/src/commands/navigate_tab.rs:50-53 | `with_wrap(b)` sets wrap to `b` and keeps direction and session |
| `NavigateTab.NoWrap` | kitty-lib/src/commands/navigate_tab.rs:55-58 | `no_wrap()` turns wrapping off and keeps direction and session |
| `NavigateTab.BuilderAliases` | kitty-lib/src/commands/navigate_tab.rs:21-58 | `no_wrap()` is `with_wrap(false)` and `next()` is `new()` |
| `SetTabTitle.New` | kitty-lib/src/commands/set_tab_title.rs:9-14 | `new(t)` carries title `t` and no match pattern, so it retitles the current tab |
| `SetTabTitle.WithMatch` | kitty-lib/src/commands/set_tab_title.rs:17-20 | `with_match(p)` sets the pattern to `p` and keeps the title |
| `SetTabTitle.ForTabId` | kitty-lib/src/commands/set_tab_title.rs:23-26 | `for_tab_id(n)` sets the pattern to "id:" followed by the decimal `n`, and keeps the title |
| `SetTabTitle.ForTabIdSelects` | kitty-lib/src/commands/set_tab_title.rs:23-26 | the pattern `for_tab_id(n)` writes is read by the reference reader as the id query for `n` and no other |
| `MockExecutor.MockExecutor.constructor` | kitty-lib/src/executor/mock_executor.rs:21-30 | a new mock has recorded no call and holds no queued response for any operation |
| `MockExecutor.MockExecutor.WithDefaultSocket` | kitty-lib/src/executor/mock_executor.rs:32-34 | `with_default_socket()` (also behind `Default`, 110-114) gives a fresh mock in the same empty state as `new()` |
| `MockExecutor.MockExecutor.ExpectLsResponse` | kitty-lib/src/executor/mock_executor.rs:36-38 | queues the listing reply at the end of the `ls` queue; nothing else changes |
| `MockExecutor.MockExecutor.ExpectFocusTabResponse` | kitty-lib/src/executor/mock_executor.rs:40-42 | queues the reply at the end of the `focus_tab` queue; nothing else changes |
| `MockExecutor.MockExecutor.ExpectLaunchResponse` | kitty-lib/src/executor/mock_executor.rs:44-49 | queues the reply at the end of the `launch` queue; nothing else changes |
| `MockExecutor.MockExecutor.LsCallCount` | kitty-lib/src/executor/mock_executor.rs:51-53 | the number of `ls` calls logged so far |
| `MockExecutor.MockExecutor.FocusTabCallCount` | kitty-lib/src/executor/mock_executor.rs:55-57 | the number of `focus_tab` calls logged so far |
| `MockExecutor.MockExecutor.LaunchCallCount` | kitty-lib/src/executor/mock_executor.rs:59-61 | the number of `launch` calls logged so far |
| `MockExecutor.MockExecutor.GetLsCalls` | kitty-lib/src/executor/mock_executor.rs:63-65 | a copy of the logged `ls` commands, oldest first |
| `MockExecutor.MockExecutor.GetFocusTabCalls` | kitty-lib/src/executor/mock_executor.rs:67-69 | a copy of the logged `focus_tab` commands, oldest first |
| `MockExecutor.MockExecutor.GetLaunchCalls` | kitty-lib/src/executor/mock_executor.rs:71-73 | a copy of the logged `launch` commands, oldest first |
| `MockExecutor.MockExecutor.Ls` | kitty-lib/src/executor/mock_executor.rs:77-83 | logs the command, answers with the most recently queued listing (an empty listing when none is queued) and removes it from the queue |
| `MockExecutor.MockExecutor.FocusTab` | kitty-lib/src/executor/mock_executor.rs:85-93 | logs the command, answers with the most recently queued reply (an empty success when none is queued) and removes it |
| `MockExecutor.MockExecutor.Launch` | kitty-lib/src/executor/mock_executor.rs:95-107 | logs the command, answers with the most recently queued reply (a success naming no tab and no window when none is queued) and removes it |
| `MockExecutor.Pop` | kitty-lib/src/executor/mock_executor.rs:79 | taking a reply from a non-empty queue shortens it by one |
| `MockExecutor.PushThenPop` | kitty-lib/src/executor/mock_executor.rs:36-38 | a response queued and then taken comes back unchanged and leaves the queue as it was |
| `MockExecutor.ServedNewestFirst` | kitty-lib/src/executor/mock_executor.rs:79-81 | two queued responses are served last in, first out |
| `MockExecutor.EmptyQueueDefaults` | kitty-lib/src/executor/mock_executor.rs:79-105 | with nothing queued, `ls` answers an empty listing, `focus_tab` an empty success, `launch` a success whose payload names no tab and no window |
| `KittyExecutor.KittyExecutor.constructor` | kitty-lib/src/executor/kitty_executor.rs:16-19 | the executor keeps the socket address it was given |
| `KittyExecutor.KittyExecutor.LsArgs` | kitty-lib/src/executor/kitty_executor.rs:29-45 | the `ls` vector is "@", "--to=" plus the socket, "ls", then "--match=" plus the pattern only when one is set; reading the vector back gives exactly the socket and the pattern |
| `KittyExecutor.KittyExecutor.FocusTabArgs` | kitty-lib/src/executor/kitty_executor.rs:49-60 | the `focus-tab` vector selects the tab by "--match=id:" and its decimal id, and the reference reader reads that pattern as the id query for that tab |
| `KittyExecutor.KittyExecutor.LaunchArgs` | kitty-lib/src/executor/kitty_executor.rs:63-83 | the `launch` vector starts with "@", the socket, "launch", "--type=" and the type; reading it back gives exactly the cwd, environment assignment and title that were set |
| `LegacyKittyLib.LsNew` | src/kitty_lib.rs:11-16 | a new listing command keeps its socket and has no pattern |
| `LegacyKittyLib.MatchEnv` | src/kitty_lib.rs:18-21 | `match_env(k, v)` sets the pattern to "env:k=v" and keeps the socket |
| `LegacyKittyLib.MatchEnvReads` | src/kitty_lib.rs:18-21 | for a variable name without '=', the reference reader reads that pattern as the env query for the name and value |
| `LegacyKittyLib.LaunchNew` | src/kitty_lib.rs:78-86 | a new launch command keeps its socket, has type "tab" and no cwd, env or title |
| `LegacyKittyLib.LaunchType` | src/kitty_lib.rs:88-91 | sets the launch type and keeps every other field |
| `LegacyKittyLib.Cwd` | src/kitty_lib.rs:93-96 | sets the cwd and keeps every other field |
| `LegacyKittyLib.Env` | src/kitty_lib.rs:98-101 | sets the env assignment to "k=v" and keeps every other field |
| `LegacyKittyLib.TabTitle` | src/kitty_lib.rs:103-106 | sets the title and keeps every other field |
| `LegacyKittyLib.EnvAssignmentReads` | src/kitty_lib.rs:98-101 | for a name without '=', the assignment splits back into that name and value |
| `LegacyKittyLib.LsArgs` | src/kitty_lib.rs:23-36 | the vector `execute` builds for `ls` reads back as exactly the socket and the optional pattern |
| `LegacyKittyLib.FocusTabArgs` | src/kitty_lib.rs:50-65 | the vector for `focus-tab` selects the tab by its id, and the reference reader reads it as the id query |
| `LegacyKittyLib.LaunchArgs` | src/kitty_lib.rs:108-144 | the vector for `launch` reads back as exactly the socket, type, cwd, env assignment and title |
| `KittenArgs.LaunchVectorReads` | src/kitty_lib.rs:108-133 | a `launch` vector laid out as "@", the socket, "launch", the type, then the cwd, the environment assignment and "--tab-title" with the title, each only when set, reads back as exactly those settings |
| `Executor.Executor.constructor` | kitty-lib/src/executor/mod.rs:12-21 | a new executor has recorded no call and answers each operation with the reply function it was given |
| `Executor.Executor.Ls` | kitty-lib/src/executor/mod.rs:13 | `ls` appends exactly one listing call to the log and answers with the executor's reply to that command |
| `Executor.Executor.FocusTab` | kitty-lib/src/executor/mod.rs:14 | `focus_tab` appends exactly one focus call to the log and answers with the reply to that command |
| `Executor.Executor.CloseTab` | kitty-lib/src/executor/mod.rs:15 | `close_tab` appends exactly one close call to the log and answers with the reply to that command |
| `Executor.Executor.Launch` | kitty-lib/src/executor/mod.rs:16-19 | `launch` appends exactly one launch call to the log and answers with the reply to that command |
| `Executor.Executor.NavigateTab` | kitty-lib/src/executor/mod.rs:20 | `navigate_tab` appends exactly one navigation call to the log and answers with the reply to that command |
| `Executor.Executor.SetTabTitle` | ksm-cli/src/kitty.rs:605-620 | the title operation the session layer uses appends exactly one retitle call to the log and answers with the reply to that command |
| `Session.Detect` | ksm-cli/src/session.rs:20-31 | the context is explicit exactly when `KITTY_SESSION_PROJECT` is set and non-empty, and then carries that value as its name; otherwise it is the unnamed context |
| `Session.New` | ksm-cli/src/session.rs:34-40 | `new(name)` is explicit and carries `name` |
| `Session.Unnamed` | ksm-cli/src/session.rs:42-47 | `unnamed()` is not explicit and counts as unnamed |
| `Session.IsUnnamedByName` | ksm-cli/src/session.rs:50-52 | `is_unnamed` looks only at the name: an explicit context called "unnamed" counts as unnamed, a detected non-explicit context always does, and a detected explicit one does exactly when the variable's value is "unnamed" |
| `Session.InSession` | ksm-cli/src/session.rs:80-82 | true exactly when the session variable is set and non-empty |
| `Session.SessionNameForKitty` | ksm-cli/src/session.rs:85-92 | a name is given exactly when the caller is in a session, and it is the variable's value |
| `Session.LastActiveTracker.constructor` | ksm-cli/src/session.rs:64-68 | the tracker starts with no session recorded |
| `Session.LastActiveTracker.GetLastActiveTab` | ksm-cli/src/session.rs:107-112 | gives the recorded tab of a session, and None exactly when the session was never recorded or was cleared |
| `Session.LastActiveTracker.SetLastActiveTab` | ksm-cli/src/session.rs:95-104 | afterwards the session's tab is the given one and every other session's entry is unchanged |
| `Session.LastActiveTracker.ClearLastActiveTab` | ksm-cli/src/session.rs:115-123 | afterwards the session has no entry and every other session's entry is unchanged |
| `Session.LastActiveTracker.GetTrackedSessions` | ksm-cli/src/session.rs:126-131 | lists every recorded session exactly once and nothing else |
| `SessionTabs.AllTabsAppend` | ksm-cli/src/kitty.rs:307-309 | the tabs of two listings put together are the tabs of the first followed by those of the second |
| `SessionTabs.AllTabsAt` | ksm-cli/src/kitty.rs:336-337 | each tab of each OS window appears in the flattened listing after the tabs of earlier OS windows and the earlier tabs of its own |
| `SessionTabs.AddMissingProperties` | ksm-cli/src/kitty.rs:316-325 | the env merge keeps every title-matched tab in place, adds only env-matched tabs, makes every env-matched id present, and adds no id already present |
| `SessionTabs.AddMissingCovers` | ksm-cli/src/kitty.rs:316-325 | the env merge keeps the title-matched tabs as a prefix, takes every other tab from the env-matched list, and makes every env-matched id present |
| `SessionTabs.AddMissingFresh` | ksm-cli/src/kitty.rs:316-325 | every tab the env merge appends has an id absent from the title-matched tabs, and a list without repeated ids stays without them |
| `SessionTabs.InsertById` | ksm-cli/src/kitty.rs:328 | inserting one tab lengthens the list by one (sortedness and contents are stated by `SessionTabs.InsertByIdCorrect`) |
| `SessionTabs.SortById` | ksm-cli/src/kitty.rs:328 | sorting keeps the number of tabs (the sorted permutation is stated by `SessionTabs.SortByIdCorrect`, stability by `SessionTabs.SortByIdStable`) |
| `SessionTabs.InsertByIdCorrect` | ksm-cli/src/kitty.rs:328 | inserting into an id-sorted list keeps it sorted and adds exactly that tab |
| `SessionTabs.SortByIdCorrect` | ksm-cli/src/kitty.rs:328 | `sort_by_key(id)` yields an id-sorted permutation of its input |
| `SessionTabs.InsertByIdStable` | ksm-cli/src/kitty.rs:328 | inserting a tab puts it after every tab with the same id, leaving their order alone |
| `SessionTabs.SortByIdStable` | ksm-cli/src/kitty.rs:328 | `sort_by_key` is stable: the tabs sharing an id come out in their input order |
| `SessionTabs.ExplicitSessionTabsUnion` | ksm-cli/src/kitty.rs:299-329 | an explicit session's tabs are sorted by id, are exactly the title matches plus the env matches whose id was missing, include every env-matched id, and repeat no id unless the title matches did; a failed query contributes nothing |
| `SessionTabs.SortedDistinct` | ksm-cli/src/kitty.rs:328 | a permutation of a list without repeated ids has none either |
| `SessionTabs.UnnamedTabsMembers` | ksm-cli/src/kitty.rs:331-350 | the unnamed session's tabs are exactly the listed tabs with neither a "session:" title nor a window carrying `KITTY_SESSION_PROJECT` |
| `SessionTabs.UnnamedTabsOrder` | ksm-cli/src/kitty.rs:336-348 | the unnamed filter keeps listing order |
| `SessionTabs.HasSessionTabsIffNotAllUnnamed` | ksm-cli/src/kitty.rs:354-376 | there are session tabs exactly when some listed tab is not in the unnamed session |
| `SessionTabs.UnnamedLength` | ksm-cli/src/kitty.rs:331-350 | the unnamed tabs are never more than the listed tabs |
| `SessionTabs.FirstWithId` | ksm-cli/src/kitty.rs:431-433 | the first tab with the id is a listed tab with that id, and there is none exactly when no listed tab has the id |
| `SessionTabs.FirstWithIdAppend` | ksm-cli/src/kitty.rs:431-433 | searching two lists in turn finds the first list's tab when it has one |
| `SessionTabs.FirstEnvSession` | ksm-cli/src/kitty.rs:449-458 | a value found comes from some window's `KITTY_SESSION_PROJECT`; none is found exactly when no window carries the variable |
| `SessionTabs.TrackedSessionOfListedTab` | ksm-cli/src/kitty.rs:423-468 | a session recorded for a focused tab is the session of a listed tab with that id, and an id not listed records nothing |
| `SessionTabs.CountsStep` | ksm-cli/src/kitty.rs:479-507 | one more tab adds one to the count of exactly its own session, or to the unnamed count |
| `SessionTabs.Names` | ksm-cli/src/kitty.rs:510 | the names of the session entries, in order |
| `SessionTabs.SumCountsIsCountIn` | ksm-cli/src/kitty.rs:475-511 | per-session counts of distinct sessions add up to the number of tabs in those sessions |
| `SessionTabs.CountInSplit` | ksm-cli/src/kitty.rs:488-497 | the tabs of a session added to those of other sessions count separately |
| `SessionTabs.CountsCoverTabs` | ksm-cli/src/kitty.rs:479-507 | every tab is counted exactly once, under its session or as unnamed |
| `SessionTabs.NamedCountPositive` | ksm-cli/src/kitty.rs:488-497 | a session has a positive count exactly when some tab belongs to it |
| `SessionScan.FirstTab` | ksm-cli/src/kitty.rs:43-51 | the loop returns the first tab of the first OS window that has one |
| `SessionScan.SortTabsById` | ksm-cli/src/kitty.rs:328 | the insertion sort computes the stable sort by id |
| `SessionScan.InsertTab` | ksm-cli/src/kitty.rs:328 | one insertion step puts the tab after every tab with a smaller or equal id, as the stable sort's step says |
| `SessionScan.CollectTabs` | ksm-cli/src/kitty.rs:306-310 | the loop collects every tab of the listing, OS window by OS window |
| `SessionScan.AddMissingTabs` | ksm-cli/src/kitty.rs:318-323 | one OS window's env matches are added exactly as the merge function says |
| `SessionScan.FilterUnnamedTabs` | ksm-cli/src/kitty.rs:337-347 | one OS window's tabs without a session title or session variable are appended, as the unnamed filter says |
| `SessionScan.MergeSessionTabs` | ksm-cli/src/kitty.rs:299-329 | the loops compute an explicit session's tabs as the merge-then-sort function defines them |
| `SessionScan.FilterUnnamed` | ksm-cli/src/kitty.rs:335-350 | the loop keeps exactly the unnamed tabs, in listing order |
| `SessionScan.AnySessionTab` | ksm-cli/src/kitty.rs:359-375 | the early-exit loop answers true exactly when the listing has session tabs |
| `SessionScan.FirstEnvSessionOf` | ksm-cli/src/kitty.rs:449-458 | the loop finds the session variable of the first window carrying it |
| `SessionScan.ClassifyTab` | ksm-cli/src/kitty.rs:434-458 | a tab's session is taken from its title first, then from its windows' environment |
| `SessionScan.FindInWindow` | ksm-cli/src/kitty.rs:432-433 | the inner loop finds the first tab of an OS window with the id |
| `SessionScan.SessionOfTab` | ksm-cli/src/kitty.rs:431-466 | the lookup gives the session of the first listed tab with the id, or none |
| `SessionScan.CollectEntries` | ksm-cli/src/kitty.rs:510 | the map's entries are listed once each with their counts |
| `SessionScan.InsertEntry` | ksm-cli/src/kitty.rs:511 | inserting a new name into a name-sorted list keeps it sorted and adds just that entry |
| `SessionScan.SortEntries` | ksm-cli/src/kitty.rs:511 | the entries come out sorted by name, none lost or added |
| `SessionScan.CountWindowTabs` | ksm-cli/src/kitty.rs:480-507 | one OS window's tabs update the counts as their classification says |
| `SessionScan.CountTabs` | ksm-cli/src/kitty.rs:479-508 | the counts are each session's number of tabs and the number of unnamed tabs |
| `SessionScan.CountsOfCounted` | ksm-cli/src/kitty.rs:479-508 | the counts the loop builds give each session its number of tabs, list no session without tabs, and the unnamed count is the number of tabs in no session |
| `SessionScan.CountSessions` | ksm-cli/src/kitty.rs:471-518 | the loops build a valid session listing of the tabs |
| `SessionListing.SumCountsSnoc` | ksm-cli/src/kitty.rs:514-516 | appending the unnamed entry adds its count to the total |
| `SessionListing.StrictlySortedDistinct` | ksm-cli/src/kitty.rs:511 | a strictly name-sorted list names no session twice |
| `SessionListing.ListingCountsSum` | ksm-cli/src/kitty.rs:471-518 | the counts of the session list add up to the number of listed tabs |
| `SessionListing.SortedSameEntriesEqual` | ksm-cli/src/kitty.rs:511 | two strictly name-sorted lists with the same entries are equal |
| `SessionListing.ListingEntry` | ksm-cli/src/kitty.rs:471-518 | an entry of the named part is exactly a session that has tabs, paired with its tab count |
| `SessionListing.ListingUnique` | ksm-cli/src/kitty.rs:471-518 | the session list is determined by the tabs, whatever order the map hands its entries out in |
| `SessionListing.Position` | ksm-cli/src/kitty.rs:533-535 | the index of the first entry with the name, and None exactly when no entry has it |
| `SessionListing.NextSessionIndex` | ksm-cli/src/kitty.rs:537-540 | the index chosen by `next_session` is a valid index of the list |
| `SessionListing.PrevSessionIndex` | ksm-cli/src/kitty.rs:567-571 | the index chosen by `prev_session` is a valid index of the list |
| `SessionListing.NextThenPrev` | ksm-cli/src/kitty.rs:521-581 | with distinct names, `prev_session` from the session `next_session` chose comes back to the start |
| `SessionListing.PrevThenNext` | ksm-cli/src/kitty.rs:521-581 | with distinct names, `next_session` from the session `prev_session` chose comes back to the start |
| `SessionListing.PositionOfDistinct` | ksm-cli/src/kitty.rs:533-535 | with distinct names, each entry is found at its own index |
| `SessionListing.CyclingMoves` | ksm-cli/src/kitty.rs:533-571 | from a listed session both directions move to a different entry; from an unlisted one `next` goes to the first and `prev` to the last |
| `Utils.ExpandTilde` | ksm-cli/src/utils.rs:8-15 | a path starting with "~/" has its '~' replaced by HOME (empty when unset); any other path is unchanged (the older copy at src/utils.rs:4-11 is the same) |
| `Utils.Scan` | ksm-cli/src/utils.rs:29-48 | a position found by the backward scan is a space directly followed by '(', before the scan's start |
| `Utils.ScanPastClose` | ksm-cli/src/utils.rs:22-48 | since the final ')' is scanned first, the " (" found lies strictly before it |
| `Utils.ParseProjectSelection` | ksm-cli/src/utils.rs:17-60 | the reverse loop with its parenthesis counter computes the parse the specification function gives (same logic as src/utils.rs:13-50) |
| `Utils.ParseIsFormatInverse` | ksm-cli/src/utils.rs:50-54 | every successful parse splits the text into a name and a path that format back to exactly that text |
| `Utils.ParseRejectsUnclosed` | ksm-cli/src/utils.rs:22-27 | text not ending with ')' is rejected with "Invalid project selection format: " and the text |
| `Utils.ScanOver` | ksm-cli/src/utils.rs:33-48 | scanning back over a stretch that never brings the counter to zero adds the stretch's depth to the counter |
| `Utils.FormatParseRoundTrip` | ksm-cli/src/utils.rs:62-64 | parsing a formatted "name (path)" gives back the name and path whenever the path's parentheses are well nested, whatever the name |
| `Utils.FormatSessionTabTitle` | ksm-cli/src/utils.rs:66-68 | the title is the folder emoji, a space, then exactly the project name |
| `Utils.ActionName` | ksm-cli/src/utils.rs:77-84 | "next" exactly for `Next` and "previous" exactly for `Previous` |
| `TabNavigation.UseWrap` | ksm-cli/src/utils.rs:98-101 | an explicit `--no-wrap` value decides (wrap exactly when it is false); otherwise the configured default decides |
| `TabNavigation.Direction` | ksm-cli/src/utils.rs:109-112 | the command direction is `Next` exactly when the requested one is |
| `TabNavigation.NavigateTab` | ksm-cli/src/utils.rs:92-116 | one navigation in the current session, in the requested direction, with the resolved wrap flag; its result and calls are those of the session navigation |
| `TabNavigation.NavigateIndex` | ksm-cli/src/kitty.rs:761-774 | one navigation step stays within the session's tabs |
| `TabNavigation.NavigateIndexArithmetic` | kitty-lib/tests/integration_test.rs:425-513 | with wrapping, next is (i+1) mod n and previous (i-1+n) mod n, so the last tab goes to the first and the first to the last as this test expects; without wrapping the ends stay put (ksm-cli/src/utils.rs:341-344, 364-370) and elsewhere the two rules agree |
| `TabNavigation.NavigateIndexInverse` | ksm-cli/src/kitty.rs:761-770 | with wrapping, previous undoes next and next undoes previous, at an inner tab as this test steps 1 to 2 and back, and across the ends as kitty-lib/tests/integration_test.rs:425-513 expects |
| `Kitty.CheckedOk` | ksm-cli/src/kitty.rs:87-100 | a command result is reported as success exactly when the reply arrived and says success; a failure's error starts with the operation's context |
| `Kitty.SessionTabLaunchFields` | ksm-cli/src/kitty.rs:103-116 | `create_session_tab_by_path` launches a tab at the project path, with `KITTY_SESSION_PROJECT` set to the project name, titled with the session title, not inheriting |
| `Kitty.InheritingLaunchFields` | ksm-cli/src/kitty.rs:140-172 | `create_tab_with_session_inheritance` launches an inheriting tab in the given directory; the given title wins, an explicit session gets its session title otherwise, and an unnamed context none |
| `Kitty.UnnamedLaunchFields` | ksm-cli/src/kitty.rs:193-206 | `create_unnamed_tab` launches a plain tab with the given directory and title, no session variable and no inheritance |
| `Kitty.NavigateCommandFields` | ksm-cli/src/kitty.rs:251-275 | the navigation command carries the direction, the context's name ("unnamed" outside a session) and the wrap flag |
| `Kitty.MatchSessionTabFinds` | ksm-cli/src/kitty.rs:35-79 | a found tab is listed by the title query or the environment query, a title match always taking precedence; "none" means neither query lists a tab |
| `Kitty.SwitchTargetMember` | ksm-cli/src/kitty.rs:391-409 | the tab switched to is one of the session's tabs, the recorded last-active one when it is still there |
| `Kitty.SwitchTargetChoice` | ksm-cli/src/kitty.rs:408-409 | among tabs in id order, the fallback is the lowest id |
| `Kitty.SwitchContext` | ksm-cli/src/kitty.rs:383 | corrected (see Findings): the context a session name stands for keeps the name and is explicit exactly when the name is not "unnamed"; the code as written uses an explicit context for every name |
| `Kitty.SwitchWithProperties` | ksm-cli/src/kitty.rs:379-420 | switching fails and changes nothing when the session's tabs cannot be listed or there are none; otherwise exactly one focus follows the queries, on one of the session's tabs, the recorded one when still there, recording the tab only when it fell back; other sessions' records never change, and a failure records nothing |
| `Kitty.SwitchToNamedFallsBackToLowest` | ksm-cli/src/kitty.rs:408-417 | for a named session with no usable record, the tab focused is the session's lowest id |
| `Kitty.UnnamedSwitchAsWrittenFails` | ksm-cli/src/kitty.rs:383-390 | as written, with one tab in no session, `switch_to_session("unnamed")`, which `next_session` picks from session "a", finds no tab and fails |
| `Kitty.SwitchToUnnamedFocusesUnnamedTab` | ksm-cli/src/kitty.rs:383-390 | corrected: switching to "unnamed" lists all tabs once and focuses one of the unnamed session's tabs whenever it has one |
| `Kitty.FocusWithTrackingProperties` | ksm-cli/src/kitty.rs:423-468 | tracking focuses first and lists only when the focus succeeded; a failed focus records nothing; the only record it can change is set to this tab, under the session of a listed tab with that id, and a listed tab with a session is always recorded |
| `Kitty.CycleOutcomeProperties` | ksm-cli/src/kitty.rs:521-581 | with at most one session nothing happens; with distinct names, cycling from a listed session switches to a different session, and from an unlisted one to the first (next) or last (previous) |
| `Kitty.NavigateOutcomeProperties` | ksm-cli/src/kitty.rs:240-289 | at most one navigate command is sent; it is skipped, successfully, exactly when the caller is in no named session and no listed tab belongs to a session; the command carries the direction, name and wrap flag, and a failed result is an error |
| `Kitty.Kitty.WithExecutor` | ksm-cli/src/kitty.rs:31-33 | the session layer talks to the executor it was given |
| `Kitty.Kitty.MatchSessionTab` | ksm-cli/src/kitty.rs:35-79 | returns the match the title-then-environment rule gives, sending the environment query only when the title query matched nothing |
| `Kitty.Kitty.FocusTab` | ksm-cli/src/kitty.rs:81-101 | sends one focus command for the id; a failed result becomes "Failed to focus tab" with its message |
| `Kitty.Kitty.CreateSessionTabByPath` | ksm-cli/src/kitty.rs:103-137 | sends the one session-tab launch; a failed result becomes "Failed to create session tab: " with its message |
| `Kitty.Kitty.CreateTabWithSessionInheritance` | ksm-cli/src/kitty.rs:140-190 | sends the one inheriting launch for the detected context; a failed result is an error |
| `Kitty.Kitty.CreateUnnamedTab` | ksm-cli/src/kitty.rs:193-221 | sends the one plain launch; a failed result is an error |
| `Kitty.Kitty.HasSessionTabs` | ksm-cli/src/kitty.rs:355-376 | lists all tabs once; answers whether any has a session title or session variable, and passes a listing error on |
| `Kitty.Kitty.NavigateSessionTab` | ksm-cli/src/kitty.rs:240-289 | returns and sends what the navigation rule says |
| `Kitty.Kitty.NextSessionTab` | ksm-cli/src/kitty.rs:224-227 | navigates forward in the detected context |
| `Kitty.Kitty.PrevSessionTab` | ksm-cli/src/kitty.rs:230-237 | navigates backward in the detected context |
| `Kitty.Kitty.GetSessionTabs` | ksm-cli/src/kitty.rs:298-352 | returns the session's tabs as the merge (explicit) or filter (unnamed) defines them, after exactly that context's queries |
| `Kitty.Kitty.GetCurrentSessionTabs` | ksm-cli/src/kitty.rs:292-295 | the tabs of the detected context |
| `Kitty.Kitty.SwitchToSession` | ksm-cli/src/kitty.rs:379-420 | returns, sends and records what the (corrected) switch rule says |
| `Kitty.Kitty.FocusTabWithTracking` | ksm-cli/src/kitty.rs:423-468 | returns, sends and records what the tracking rule says |
| `Kitty.Kitty.ListSessions` | ksm-cli/src/kitty.rs:471-518 | lists all tabs once; passes a listing error on, otherwise returns the unique session listing of the tabs |
| `Kitty.Kitty.NextSession` | ksm-cli/src/kitty.rs:521-549 | after one listing, switches as the cycling rule says for the detected session going forward; a listing error is passed on with nothing recorded |
| `Kitty.Kitty.PrevSession` | ksm-cli/src/kitty.rs:552-581 | the same going backward |
| `Kitty.Kitty.Cycle` | ksm-cli/src/kitty.rs:521-581 | the shared body of `next_session` and `prev_session` |
| `Kitty.Kitty.Ls` | ksm-cli/src/kitty.rs:583-585 | passes the command to the executor and its reply back unchanged |
| `Kitty.Kitty.CloseTab` | ksm-cli/src/kitty.rs:588-602 | sends one close command and returns its result even when it failed |
| `Kitty.Kitty.SetTabTitle` | ksm-cli/src/kitty.rs:605-620 | sends one retitle command for the current tab; a failed result becomes "Failed to set tab title: " with its message |
| `ConfigTypes.Path` | ksm-cli/src/config/types.rs:17-22 | the path of a project entry, whichever of its two forms it has |
| `ConfigTypes.Description` | ksm-cli/src/config/types.rs:24-29 | a bare-path entry has no description; a detailed entry has the one it was given, if any |
| `ConfigTypes.DefaultSearch` | ksm-cli/src/config/types.rs:76-82 | the default search settings set nothing |
| `AutoProfile.RuleMatches` | ksm-cli/src/config/auto_profile.rs:16-52 | a rule errs exactly when it has a host pattern, the host name is known and the pattern does not compile; otherwise it matches exactly when the host pattern matches, some expected variable has its value, the SSH condition equals whether SSH variables are set, or it is the default rule |
| `AutoProfile.SelectAutoProfileFirstMatch` | ksm-cli/src/config/auto_profile.rs:7-14 | no profile exactly when every rule answers no; otherwise the result is decided by the first rule not answering no: its profile, or its error |
| `AutoProfile.EarlierMatchShadows` | ksm-cli/src/config/auto_profile.rs:8-12 | a matching rule preceded only by non-matching rules selects its profile, whatever follows |
| `Config.SelectProfiles` | ksm-cli/src/config.rs:74-84 | a manual list is used as given; otherwise the automatically chosen profile alone, none when no rule matches, and a rule error is an error |
| `Config.FromConfigData` | ksm-cli/src/config.rs:62-112 | loading fails exactly when choosing profiles fails; otherwise every missing section is empty (default search settings, empty maps, no rules) and the rules are consulted only when no profile is given by hand |
| `Config.Reversed` | ksm-cli/src/config.rs:253 | the reverse of a list: same length, positions mirrored |
| `Config.WalkProperties` | ksm-cli/src/config.rs:217-250 | following `extends` meets only defined, unvisited profiles, each once, each extending the next, starting at the requested one, and stops exactly where the next step would leave the defined profiles, revisit one, or the profile extends nothing |
| `Config.ChainMembers` | ksm-cli/src/config.rs:212-255 | the chain holds exactly the profiles the walk meets |
| `Config.ChainShape` | ksm-cli/src/config.rs:212-255 | the chain is empty exactly when the profile is undefined; otherwise it ends at the profile, holds only defined profiles and repeats none |
| `Config.ChainLinks` | ksm-cli/src/config.rs:226-253 | each profile of the chain after the first extends the one before it, and the first is where following `extends` stops |
| `Config.ChainOfRoot` | ksm-cli/src/config.rs:230-244 | a profile extending nothing (`extends = false`, `true` or absent) is a chain of its own |
| `Config.BuildProfileChain` | ksm-cli/src/config.rs:212-255 | the loop with its visited set computes the chain, base first |
| `Config.LayersDefined` | ksm-cli/src/config.rs:173-176 | only defined profiles are layered, and nothing is layered exactly when no selected profile is defined |
| `Config.OverlayKeys` | ksm-cli/src/config.rs:170-189 | a key is resolved exactly when the base or some layered profile defines it |
| `Config.OverlayLaterWins` | ksm-cli/src/config.rs:180-181 | a key's resolved value comes from the last layered profile that defines it |
| `Config.OverlayKeepsBase` | ksm-cli/src/config.rs:170-189 | a key no layered profile defines keeps its base value |
| `Config.OverlayChain` | ksm-cli/src/config.rs:177-184 | the inner loop lays one chain's maps over the accumulated map in chain order |
| `Config.ResolveMap` | ksm-cli/src/config.rs:170-210 | the loop shared by projects and keys computes the base overlaid by every layer in order |
| `Config.ResolvedProjects` | ksm-cli/src/config.rs:170-189 | resolved projects are the base projects overlaid by the layers' projects |
| `Config.ResolvedKeys` | ksm-cli/src/config.rs:191-210 | resolved keys are the base keys overlaid by the layers' keys |
| `Config.Join` | ksm-cli/src/config.rs:118-125 | a key is kept exactly when its project is defined, and then maps to that project's path |
| `Config.KeyedProjects` | ksm-cli/src/config.rs:114-126 | the keyed projects are the join of the resolved keys with the resolved projects |
| `Config.SearchOverlayFields` | ksm-cli/src/config.rs:128-168 | each list setting is the base's entries followed by each layer's, in layer order; the depth is the last setting layer's, else the base's |
| `Config.SearchChain` | ksm-cli/src/config.rs:135-163 | the inner loop lays one chain's search settings over the accumulated settings |
| `Config.ResolvedSearch` | ksm-cli/src/config.rs:128-168 | the resolved search settings are the base with every layer's search settings over it |
| `Discovery.Tilde` | ksm-cli/src/config/discovery.rs:17 | a leading "~" alone or before "/" becomes HOME when it is set; any other path is unchanged |
| `Discovery.GlobDirsMembers` | ksm-cli/src/config/discovery.rs:24-37 | exactly the directory entries a glob yields are kept; unreadable entries and non-directories are dropped |
| `Discovery.GlobInto` | ksm-cli/src/config/discovery.rs:24-37 | the loop over a glob's entries appends to the list it is given exactly the glob's directories, in the order the glob yields them |
| `Discovery.ExpandPatternShape` | ksm-cli/src/config/discovery.rs:16-46 | a literal entry is kept, tilde-expanded, whether or not it exists; a glob entry contributes exactly the directories the glob yields, nothing for an invalid pattern |
| `Discovery.ExpandAllMember` | ksm-cli/src/config/discovery.rs:15-47 | a path is listed exactly when some `dirs` entry contributes it |
| `Discovery.FlattenMember` | ksm-cli/src/config/discovery.rs:62-69 | a path is found exactly when the search of some root found it |
| `Discovery.GitProjectsSound` | ksm-cli/src/config/discovery.rs:83-139 | every path the search reports is a repository within the depth limit, reached through readable, non-repository, non-skipped directories |
| `Discovery.GitProjectsComplete` | ksm-cli/src/config/discovery.rs:83-139 | every repository so reachable is reported |
| `Discovery.FindGitProjects` | ksm-cli/src/config/discovery.rs:83-139 | the recursive search appends exactly what the search function reports to the list it is given |
| `Discovery.DiscoverGitProjects` | ksm-cli/src/config/discovery.rs:57-72 | each `vsc` root that is an existing directory is searched from depth 0, in order |
| `Discovery.ExpandInto` | ksm-cli/src/config/discovery.rs:17-46 | one `dirs` entry's contribution is appended to the list |
| `Discovery.ExpandedDirectories` | ksm-cli/src/config/discovery.rs:11-55 | the expanded `dirs` entries, in order, followed by the discovered repositories |
| `Discovery.DiscoveredExact` | ksm-cli/src/config/discovery.rs:57-72 | a path is discovered exactly when it is a repository within reach of some existing `vsc` root |
| `CloseAllSessionTabs.Target` | ksm-cli/src/cmd/close_all_session_tabs.rs:29-41 | a named session is the target; otherwise the detected session when it is explicit, else there is none |
| `CloseAllSessionTabs.TabsOfMembers` | ksm-cli/src/cmd/close_all_session_tabs.rs:50-63 | the filter keeps exactly the listed tabs with a window whose `KITTY_SESSION_PROJECT` equals the target |
| `CloseAllSessionTabs.CloseCalls` | ksm-cli/src/cmd/close_all_session_tabs.rs:106-109 | one close call per tab, in order, for that tab's id |
| `CloseAllSessionTabs.CloseAccounting` | ksm-cli/src/cmd/close_all_session_tabs.rs:103-128 | every tab is counted as closed or as failed, never both; each failure is a tab whose close erred or reported failure, and there are none exactly when every close succeeded |
| `CloseAllSessionTabs.ToCloseExact` | ksm-cli/src/cmd/close_all_session_tabs.rs:50-72 | the tabs closed are exactly the listed tabs of the target session, each as often as listed, in ascending id order |
| `CloseAllSessionTabs.CloseAllCloses` | ksm-cli/src/cmd/close_all_session_tabs.rs:19-165 | when any tab is closed, the closing was forced or confirmed with "y"/"yes", the calls after the listing close the session's tabs in id order, and the command fails exactly when some close failed, with "Failed to close F out of N tabs in session 'S'" |
| `CloseAllSessionTabs.CloseAllNothingClosed` | ksm-cli/src/cmd/close_all_session_tabs.rs:29-100 | without a target nothing is asked of kitty; with no tab, a failed listing or no confirmation only the listing is sent |
| `CloseAllSessionTabs.IsYesWords` | ksm-cli/src/cmd/close_all_session_tabs.rs:94-99 | the trimmed, lower-cased answer confirms exactly when it is "y" or "yes" |
| `CloseAllSessionTabs.CollectWindowTabs` | ksm-cli/src/cmd/close_all_session_tabs.rs:52-62 | one OS window's tabs of the target are appended as the filter says |
| `CloseAllSessionTabs.CollectSessionTabs` | ksm-cli/src/cmd/close_all_session_tabs.rs:50-63 | the loops gather exactly the filtered tabs, in listing order |
| `CloseAllSessionTabs.CloseEach` | ksm-cli/src/cmd/close_all_session_tabs.rs:103-128 | the closing loop sends one close per tab, in order, and counts successes and failures as the accounting functions say |
| `CloseAllSessionTabs.CloseListed` | ksm-cli/src/cmd/close_all_session_tabs.rs:50-155 | after the listing, gathers, sorts, confirms and closes as the outcome function says |
| `CloseAllSessionTabs.CloseTarget` | ksm-cli/src/cmd/close_all_session_tabs.rs:43-155 | lists the target's tabs, then gathers, sorts, confirms and closes as the outcome function says; a failed listing is returned with nothing else sent |
| `CloseAllSessionTabs.TargetListed` | ksm-cli/src/cmd/close_all_session_tabs.rs:43-155 | once the listing succeeds, the command's calls are the query followed by the close stage's, and its result is the close stage's |
| `CloseAllSessionTabs.TargetListingFailed` | ksm-cli/src/cmd/close_all_session_tabs.rs:43-48 | a failed listing is the command's error, after the one query |
| `CloseAllSessionTabs.CloseAllSessionTabsWithContext` | ksm-cli/src/cmd/close_all_session_tabs.rs:19-165 | returns and sends what the outcome function says |
| `Key.Lookup` | ksm-cli/src/cmd/key.rs:75-78 | a path is found exactly when some pair has the key |
| `Key.LookupFirst` | ksm-cli/src/cmd/key.rs:75-78 | the path found is that of the first pair with the key |
| `Key.LookupAppend` | ksm-cli/src/cmd/key.rs:75-78 | pairs listed earlier take precedence over later ones |
| `Key.ResolveProjectPath` | ksm-cli/src/cmd/key.rs:74-85 | fails with "No project found for key: " and the key exactly when no pair has the key; otherwise the path of a pair with the key, "~/" expanded (the older copy, src/cmd/key.rs:54-65, is the same) |
| `Key.ResolveFromKeyedProjects` | ksm-cli/src/cmd/key.rs:29-31 | over the keyed projects of a configuration, in whatever order listed, a configured key resolves to its own path and any other fails |
| `Key.LastSegment` | ksm-cli/src/cmd/key.rs:53-54 | the characters after the last '/', a suffix of the path without '/' |
| `Key.FileNamePlain` | ksm-cli/src/cmd/key.rs:53-56 | a file name, when there is one, is a single non-empty component other than "." and ".." |
| `Key.LastComponentNonEmpty` | ksm-cli/src/cmd/key.rs:53-54 | the last component is non-empty, has no '/' and is not "." |
| `Key.FileNameTrailingSlash` | ksm-cli/src/cmd/key.rs:53-54 | a trailing '/' does not change the file name |
| `Key.FileNameOfJoin` | ksm-cli/src/cmd/key.rs:53-54 | a directory joined with a plain name has that name as its file name, and so does the name alone |
| `Key.LastSegmentWhole` | ksm-cli/src/cmd/key.rs:53-54 | a name without '/' is its own last segment |
| `Key.ProjectName` | ksm-cli/src/cmd/key.rs:53-56 | the project name is the path's file name, or "unknown" when it has none |
| `Key.Decide` | ksm-cli/src/cmd/key.rs:63-71 | an existing tab is focused exactly when the lookup succeeded and found one, by its id; otherwise (a failed lookup included) a session is created at the path under the project name |
| `Key.KeyOutcomeProperties` | ksm-cli/src/cmd/key.rs:33-72 | an unknown key fails before kitty is asked anything; printing the path asks kitty nothing; otherwise the lookup's queries are followed by exactly one focus of the found tab or one launch of the expanded path under its project name, the launch exactly when no tab was found |
| `Key.CmdKeyWithProjects` | ksm-cli/src/cmd/key.rs:33-72 | returns and sends what the outcome function says (same as src/cmd/key.rs:14-52) |
| `RenameTab.RenameTitleShape` | ksm-cli/src/cmd/rename_tab.rs:15-22 | inside an explicit session the title is "session:" and the name, " - ", then the description, so the tab still has a session title; outside one it is the description alone |
| `RenameTab.RenameTitleRecoversDescription` | ksm-cli/src/cmd/rename_tab.rs:18 | the description can be read back from a renamed session tab's title after the marker |
| `RenameTab.CmdRenameTab` | ksm-cli/src/cmd/rename_tab.rs:9-34 | one retitle of the current tab with the title for the detected context; a failure is passed on as the session layer reports it |
| `LegacyConfig.GetKeyedProjectsFromConfig` | src/config.rs:59-69 | the base projects followed by the work projects when the work flag is set, else the personal ones |
| `LegacyConfig.BaseWins` | src/config.rs:59-69 | a key in the base list resolves there whatever the other lists say; any other key resolves in the list the flag picks |
| `LegacyConfig.GetAllDirectories` | src/config.rs:84-121 | the expanded `dirs` entries, in order, by the same rule as the newer tool |
| `LegacyConfig.AllDirectoriesMembers` | src/config.rs:88-118 | a directory is listed exactly when some entry contributes it |

## Left out

- Process spawning, socket discovery (`get_kitty_socket`), JSON and TOML parsing, reading files and logging are I/O. Only the argument vectors and the parsed records are modelled.
- The contents of stdin and stdout are not modelled. The confirmation answer of `close-all-session-tabs` is a string parameter. The prompt and `--print-path` output are not modelled.
- `parse_session_from_title` is not part of this model. It is an arbitrary function `string -> Option<string>` wherever titles are classified.
- The tab index rule of `navigate_tab` is carried out by kitty, not by ksm. `TabNavigation.NavigateIndex` states the rule the mock-based ksm tests expect and is not tied to any code: one step forward or back; with wrapping, inner steps as ksm-cli/src/kitty.rs:761-770 and ksm-cli/src/utils.rs:337-339, 361-366 expect, and around the ends as kitty-lib/tests/integration_test.rs:425-513 expects, a test that stands in for navigation with direct focus commands (no ksm mock test wraps at an end); without wrapping, staying on the first tab going back (ksm-cli/src/kitty.rs:772-774, ksm-cli/src/utils.rs:364-370) or on the last going forward (ksm-cli/src/utils.rs:341-344, ksm-cli/src/cmd/next_tab.rs:45-48) without it.
- `config.default_wrap_tabs()` is not part of this model. Its value is the `defaultWrap` parameter.
- Widths: tab ids are `nat` and search depths are `nat`. The u32 range and overflow of `current_depth + 1` are not modelled.
- `HashMap` iteration order is not modelled. `keyed_projects` is a map rather than a vector in hash order. `get_tracked_sessions` returns each name once in some order. `list_sessions` is proved independent of the order because it sorts.
- The last-active tracker is a global behind a lock in the program. Here it is one object passed in; concurrent access is not modelled.
- `Kitty.Kitty.SwitchToSession` follows the corrected switch rule (see Findings). The as-written rule is `Kitty.SwitchOutcomeAsWritten`.
- `extends = false`, `extends = true` and no `extends` all end the chain with the base settings still underneath. The model keeps this as written (`Config.ChainOfRoot`), although the comment at ksm-cli/src/config.rs:230-231 suggests `false` was meant to drop the base.
- `Discovery.Tilde` (`shellexpand::tilde`) and `Utils.ExpandTilde` differ as the sources do. The model of the first takes HOME as the home directory, a simplification: the library's own home lookup, which falls back to the password database when HOME is unset or empty, is not modelled. It also expands a bare "~". The second uses an empty HOME when unset and expands only "~/".
- Paths are '/'-separated strings. `Key.FileName` follows `Path::file_name` on Unix paths; non-UTF-8 names are not modelled.
- `parse_project_selection` mixes character and byte positions. The model treats the text as a sequence of characters, which agrees for ASCII text.
- `format_session_tab_title` uses the folder emoji U+1F4C1, as ksm-cli/tests/kitty_mock_test.rs:96 expects. The unit test at ksm-cli/src/kitty.rs:741-744 expects a "session:" title instead and is not followed.
- The mock's `set_tab_title` queue used by the `rename_tab` tests is not in kitty-lib/src/executor/mock_executor.rs, so it is not modelled. The mock's `close_tab`, `navigate_tab`, `add_session_tab` and `set_active_tab` are absent for the same reason.
- kitty's own `--match` syntax (`and`, `or`, `not`, parentheses, regular expressions for title and env values) is not modelled. `MatchQuery.Read` is a reference reader of only the three forms the program writes, and reads names and patterns literally.
- `dirs_special` of the older JSON config is never read by the code and is not modelled.
- Thin command wrappers that only parse arguments or print (`cmd/list.rs`, `cmd/select.rs`, `cmd/new_tab.rs`, `cmd/next_tab.rs`, `cmd/prev_tab.rs`, `cmd_keys`, `main.rs`, `cli.rs`, `app.rs`) and the older `src/kitty.rs` are I/O around the modelled operations.
- SessionTabs.InsertById: its own contract states only the length; that it keeps a sorted list sorted and adds exactly the tab is `SessionTabs.InsertByIdCorrect`, and where equal ids go is `SessionTabs.InsertByIdStable`.
- SessionTabs.SortById: its own contract states only the length; the id-sorted permutation is `SessionTabs.SortByIdCorrect` and stability is `SessionTabs.SortByIdStable`.
- Kitty.SwitchContext: follows the corrected switch rule (see Findings): "unnamed" maps to the non-explicit context, where ksm-cli/src/kitty.rs:383 builds an explicit `SessionContext::new("unnamed")`.
- Kitty.CycleOutcome: switches through the corrected `Kitty.SwitchOutcome`, so cycling onto "unnamed" focuses an unnamed tab where the code as written fails with "Session 'unnamed' not found or has no tabs" (`Kitty.UnnamedSwitchAsWrittenFails`).
- Kitty.Kitty.NextSession: follows the corrected switch rule through `Kitty.CycleOutcome`; when the next session is "unnamed" the code as written fails instead.
- Kitty.Kitty.PrevSession: follows the corrected switch rule through `Kitty.CycleOutcome`; when the previous session is "unnamed" the code as written fails instead.
- Kitty.Kitty.Cycle: the shared body of the two above, switching by the corrected rule.
- MockExecutor.Pop: states only the length of the queue after a call; what is removed is stated by `MockExecutor.PushThenPop` and `MockExecutor.ServedNewestFirst`.
- SessionListing.NextSessionIndex: its own contract states only that the index is valid; the cycling rule is stated by `SessionListing.CyclingMoves`, `SessionListing.NextThenPrev` and `SessionListing.PrevThenNext`.
- SessionListing.PrevSessionIndex: its own contract states only that the index is valid; the cycling rule is stated by the same three lemmas.

## Findings

| source | as written | input that shows it | evidently intended | confidence | as-written member | corrected member |
|---|---|---|---|---|---|---|
| ksm-cli/src/kitty.rs:383 | `switch_to_session(name)` always builds an explicit context with `SessionContext::new(name)`, so for "unnamed" it sends the title and env queries for a session called "unnamed" | one tab with no session title and no session variable, plus session "a"; `list_sessions` gives [("a",1),("unnamed",1)], and `next_session` from "a" switches to "unnamed", whose queries list nothing, so it fails with "Session 'unnamed' not found or has no tabs" | switching to "unnamed" (which `list_sessions` reports at 514-516 and `next_session`/`prev_session` pick) reaches the unnamed session's tabs through the unnamed context | not executed | `Kitty.UnnamedSwitchAsWrittenFails` | `Kitty.SwitchToUnnamedFocusesUnnamedTab` |

# HiveMonitorTUI core, modelled in Dafny

HiveMonitorTUI is a terminal dashboard for a HiveCore inference cluster. It
keeps one shared `App` state: six tabs, three focus regions, a FIFO banner
queue, list cursors and eight caches of fetched data. A key/tick event loop
updates that state. Its inference client pulls and deletes models on a worker
and reads the worker's newline-delimited JSON progress stream. Beside these sit
a first-run setup form, a demo counter panel with a cyclic list widget, the
payload shaping for `/worker/pings` and `/key`, URL joining, and the arithmetic
of the dashboard renderer.

The project models these parts with one Dafny module per source file:

| module | file | form |
|---|---|---|
| `InferClient` (`infer_client.dfy`) | `src/clients/infer_client.rs` | the stream ingester is imperative: a buffer loop writing into an `ActionSink` object, proved against the functions `SplitLines`, `FeedAll`, `HandleLine`, `ProcessLines` and `Ingest` |
| `AppState` (`app.dfy`) | `src/app.rs` | class `App`; every method is tied to a function on the value snapshot `State` |
| `Handler` (`handler.dfy`) | `src/events/handler.rs` | methods `HandleEvent`/`HandleEvents` on `App`, proved against `Step`/`Run` |
| `Setup` (`setup_panel.dfy`) | `src/tui/setup_panel.rs` | pure `Initial`/`FinalValues`, and class `SetupPanel` with `HandleEvent` |
| `ControlPanel` (`control_panel.dfy`) | `src/tui/control_panel.rs` | class `App` with a `u8` counter and a `Workers` object |
| `WorkersWidget` (`workers.dfy`) | `src/widgets/workers.rs` | class `Workers` |
| `Dashboard` (`dashboard.dfy`) | `src/ui/tabs/dashboard.rs` | the drawing code's computations only: sorting, packing loops, queue partition |
| `Parsing` (`parsing.dfy`) | `src/utils/parsing.rs` | a map-filling loop and a pure decoding |
| `Http` (`http.dfy`) | `src/utils/http.rs` | pure |
| `Errors`, `Models`, `Json`, `Text`, `Keys`, `Wrappers` | `src/errors.rs`, `src/models.rs`, and the library behaviour the core relies on | data types, `Display`, serde decodings, Rust `str` helpers, key codes |

The doc comment of `workers_len` (src/app.rs:228) says it excludes the "Unauthenticated" entry, but the code counts every status key. The model follows the code: `AppState.WorkerCountIncludesUnauthenticated` states the count, and `Dashboard.CursorPassesLastWorker` shows the cursor it lets past the last listed worker.

Remote calls, the UTF-8 decoder, the JSON parser/printer and the RFC 3339
parser are parameters. A fetch is an `Option` or a `Result`.

## Model

| member | source | states |
|---|---|---|
| InferClient.IndexOf | src/clients/infer_client.rs:86 | the position found is the first newline of the buffer, and `None` means the buffer holds no newline |
| InferClient.SplitLines | src/clients/infer_client.rs:86-87 | no line is drained exactly when the buffer holds no newline, and the leftover is no longer than the buffer |
| InferClient.FeedAll | src/clients/infer_client.rs:80-87 | after every chunk has been appended and drained, the buffer holds no newline |
| InferClient.SplitLinesConcat | src/clients/infer_client.rs:86-87 | the drained lines concatenated with the leftover are exactly the buffer |
| InferClient.ChunkIndependence | src/clients/infer_client.rs:80-87 | appending chunk after chunk and draining each time yields exactly the lines and leftover of the concatenated bytes |
| InferClient.ChunkingIrrelevant | src/clients/infer_client.rs:80-87 | two chunkings of the same bytes drain the same lines and leave the same buffer |
| InferClient.FeedAllInvariant | src/clients/infer_client.rs:83-87 | after each drain the buffer holds no newline, each drained line ends in its only newline, and lines plus buffer are every byte received |
| InferClient.MessageOf | src/clients/infer_client.rs:100-104 | a `"status"` member wins even when it is not a string (the value's JSON text is then used); `"message"` is used only when `"status"` is absent; otherwise the JSON text |
| InferClient.LineSuccess | src/clients/infer_client.rs:107 | a line fails exactly when its `"error"` member is boolean `true` |
| InferClient.HandleLine | src/clients/infer_client.rs:88-121 | a stopped ingester does nothing; invalid UTF-8 stops it with a decode error; a blank trimmed line changes nothing; success only ever goes from true to false; the log only grows |
| InferClient.LineEffectOrder | src/clients/infer_client.rs:109-120 | a failed JSON line writes its error banner before its output line, but not as the final remainder; a non-JSON line writes an output line and then the same text as a banner |
| InferClient.HandleLineSuccess | src/clients/infer_client.rs:93-118 | without a decode error, the overall flag becomes the old flag and-ed with whether the line is ok |
| InferClient.ProcessLinesAppend | src/clients/infer_client.rs:86-122 | handling `a + b` is handling `a` and then `b` |
| InferClient.ProcessLinesStopped | src/clients/infer_client.rs:89 | after a decode error nothing more is written |
| InferClient.ProcessLinesSuccess | src/clients/infer_client.rs:78-118 | over lines that do not stop the ingester, the flag ends true exactly when it started true and every line was ok |
| InferClient.ProcessLinesMonotone | src/clients/infer_client.rs:78-118 | once false the flag stays false, and the log only grows |
| InferClient.ProcessLines | src/clients/infer_client.rs:86-122 | a failure is never cleared, and a failure the lines introduce is a decode error |
| InferClient.ErrIndex | src/clients/infer_client.rs:80-81 | the index of the first transport error: every item before it arrived |
| InferClient.Ingest | src/clients/infer_client.rs:78-160 | with no error the summary line, flagged with the overall success, comes last; with a transport or decode error the result is `Err` and nothing follows the lines |
| InferClient.IngestErrors | src/clients/infer_client.rs:81-89 | a decode error in a line received before a transport error is the error reported; otherwise the transport error is |
| InferClient.SummaryReflectsLines | src/clients/infer_client.rs:154-159 | the summary says "completed successfully." with `true` exactly when every received line, the leftover included, was ok |
| InferClient.SummaryLine | src/clients/infer_client.rs:154-158 | the final message starts with "Model pull " or "Model delete " by the verb, and ends in " successfully." exactly when the run succeeded |
| InferClient.ActionUrl | src/clients/infer_client.rs:68 | the URL is the base with exactly its trailing slashes removed (a prefix not ending in '/', followed in the base only by slashes), then `/api/pull` or `/api/delete` |
| InferClient.ActionSink.AddBanner | src/clients/infer_client.rs:111 | appends one banner and leaves the output lines alone |
| InferClient.ActionSink.AddOutputLine | src/clients/infer_client.rs:113 | appends one output line and leaves the banners alone |
| InferClient.EmitJson | src/clients/infer_client.rs:99-114 | writes the banner (for a failed line) and the message, and returns whether the line succeeded |
| InferClient.EmitNonJson | src/clients/infer_client.rs:115-120 | writes the output line and then the same text as a banner |
| InferClient.EmitText | src/clients/infer_client.rs:97-121 | writes exactly what the specification of a non-blank line says and returns whether it leaves the flag alone |
| InferClient.EmitLine | src/clients/infer_client.rs:87-121 | one drained line: returns its decode error if any, and otherwise writes exactly `HandleLine`'s effects |
| InferClient.DrainLines | src/clients/infer_client.rs:86-122 | the inner loop drains and handles exactly the complete lines of the buffer and keeps its unterminated rest, or stops at the first line with a decode error |
| InferClient.ReadChunk | src/clients/infer_client.rs:80-122 | one turn of the outer loop: the reader then stands after chunk `k`, or the whole run has ended with the decode error |
| InferClient.FinishStream | src/clients/infer_client.rs:125-160 | handles the leftover line as the final remainder, then writes the summary unless that failed |
| InferClient.IngestStream | src/clients/infer_client.rs:76-160 | the imperative buffer loop returns and writes exactly what `Ingest` specifies |
| InferClient.NewInferClient | src/clients/infer_client.rs:16-25 | fails with an invalid-header error exactly when the token is not a valid header value; with a valid token a failed HTTP client build is that build's `Reqwest` error, and success keeps the base URL and the bearer text |
| InferClient.MakeHeaders | src/clients/infer_client.rs:27-34 | Authorization first, then `node` when a node is named; an invalid node name is an invalid-header error |
| InferClient.ActionRequest | src/clients/infer_client.rs:67-73 | POST for pull and DELETE for delete, to the action URL, with `make_headers`' headers and the body `{"name": model}`; fails exactly when the headers do |
| InferClient.Action | src/clients/infer_client.rs:67-252 | a header error or a failed request returns before anything is written; otherwise the result is the ingestion of the response stream |
| InferClient.RunAction | src/clients/infer_client.rs:67-252 | `pull_model`/`delete_model` write and return exactly what `Action` specifies |
| AppState.TabPosition | src/app.rs:25-34 | the position of any tab in `Tab::all()` exists |
| AppState.TabAtPosition | src/app.rs:25-34 | the tab stands at the position found |
| AppState.Next | src/app.rs:121-127 | the position in `Tab::all()` advances by one modulo 6 |
| AppState.Prev | src/app.rs:130-136 | the position in `Tab::all()` goes back by one modulo 6 |
| AppState.NextFollowsOrder | src/app.rs:121-127 | `next_tab` steps forward in `Tab::all()` order and wraps from Logs to Dashboard |
| AppState.PrevNextInverse | src/app.rs:121-136 | `prev_tab` and `next_tab` undo each other |
| AppState.NextNPosition | src/app.rs:121-127 | after `n` calls of `next_tab` the position has advanced by `n` modulo 6 |
| AppState.NextNCycle | src/app.rs:25-34 | `n` calls of `next_tab` return to the start exactly when `n` is a multiple of 6 |
| AppState.FocusCycle | src/app.rs:211-226 | three `focus_right` calls are the identity; `focus_left` leaves the focus alone only on the workers list |
| AppState.RightOf | src/app.rs:211-217 | `focus_right` always changes the focus, and reaches the workers list exactly from the global view |
| AppState.LeftOf | src/app.rs:220-226 | `focus_left` keeps the focus exactly on the workers list, and elsewhere is undone by `focus_right` |
| AppState.LeftUndoesRight | src/app.rs:211-226 | `focus_left` undoes `focus_right` exactly when the focus was not the global view |
| AppState.Initial | src/app.rs:95-118 | `App::new`: profile 0, the Dashboard tab, workers-list focus, cursors at 0, the three actions, nothing cached or queued |
| AppState.Cleared | src/app.rs:159-170 | nothing is cached, console output and input are empty, and the tab, focus, cursors, profiles and banners are kept |
| AppState.ClearedSpec | src/app.rs:159-170 | `clear_caches` empties the eight caches, the console output and the input, touches nothing else, and is idempotent |
| AppState.WithProfile | src/app.rs:139-144 | an index past the profiles changes nothing; otherwise it becomes active and nothing is cached |
| AppState.WithProfileSpec | src/app.rs:139-144 | an out-of-range index changes nothing; otherwise the profile is switched and the caches are cleared; a valid active index stays valid |
| AppState.WithBanner | src/app.rs:147-149 | the message is appended after the old banners, and nothing else changes |
| AppState.Dismissed | src/app.rs:152-156 | the oldest banner is removed, leaving the rest in order; with no banners nothing changes |
| AppState.BannersFifo | src/app.rs:147-156 | banners are a FIFO queue: added messages come out in order after the older ones; dismissing with no banners changes nothing |
| AppState.CursorUp | src/app.rs:175-189 | only the focused cursor moves, one down to a floor of 0 |
| AppState.LastIndex | src/app.rs:195-201 | `len - 1` for `usize`: the length minus one, wrapping 0 to `usize::MAX` |
| AppState.CursorDown | src/app.rs:192-208 | only the focused cursor moves, one up below the last index of the focused list and not at or past it |
| AppState.CursorDownBound | src/app.rs:192-208 | on a non-empty list the cursor stays inside it; on an empty list the wrapped last index lets the cursor climb by one |
| AppState.CursorMoves | src/app.rs:175-208 | in every state, `focus_up`/`focus_down` move only the focused cursor by at most one, never below 0 or above the last index, and do nothing on the global view |
| AppState.UpUndoesDown | src/app.rs:175-208 | below the last index, `focus_up` undoes `focus_down` |
| AppState.CursorDownSaturates | src/app.rs:192-208 | repeated `focus_down` stops at the last index of the focused list |
| AppState.WorkerCountIncludesUnauthenticated | src/app.rs:229-233 | `workers_len` counts the "Unauthenticated" entry too |
| AppState.WorkerCount | src/app.rs:229-233 | 0 exactly when no status map is cached or the map is empty |
| AppState.App.constructor | src/app.rs:95-118 | the new object's fields are `Initial(profiles)` |
| AppState.App.NextTab | src/app.rs:121-127 | only the tab changes, to `Next` |
| AppState.App.PrevTab | src/app.rs:130-136 | only the tab changes, to `Prev` |
| AppState.App.SetActiveProfile | src/app.rs:139-144 | the new state is `WithProfile` of the old |
| AppState.App.AddBanner | src/app.rs:147-149 | the banner is appended |
| AppState.App.DismissBanner | src/app.rs:152-156 | the oldest banner is removed, if any |
| AppState.App.ClearCaches | src/app.rs:159-170 | the new state is `Cleared` of the old |
| AppState.App.FocusUp | src/app.rs:175-189 | the new state is `CursorUp` of the old |
| AppState.App.FocusDown | src/app.rs:192-208 | the new state is `CursorDown` of the old, for every state; on an empty list the last index is the wrapped `0 - 1` |
| AppState.App.FocusRight | src/app.rs:211-217 | only the focus changes, to `RightOf` |
| AppState.App.FocusLeft | src/app.rs:220-226 | only the focus changes, to `LeftOf` |
| AppState.App.WorkersLen | src/app.rs:229-233 | the number of status keys, 0 when nothing is cached |
| Handler.StopsExactly | src/events/handler.rs:11-120 | the loop ends exactly on `q`, on `Stop`, or on a tick whose management client cannot be built |
| Handler.Step | src/events/handler.rs:12-120 | only a Left or Right key changes the tab |
| Handler.KeyStep | src/events/handler.rs:15-69 | a key stops the loop exactly when it is `q`, never changes the profiles, and changes the tab only for Left or Right |
| Handler.TickStep | src/events/handler.rs:72-118 | a tick continues exactly when the management client can be built, and keeps the tab and the profiles |
| Handler.BaseUrl | src/events/handler.rs:76-79 | the base URL is the host, a colon and the port's decimal text: non-empty digits without a leading zero that read back as the port |
| Handler.TabKeysEverywhere | src/events/handler.rs:18-20 | Left, Right and `r` call `prev_tab`, `next_tab` and `clear_caches` on every tab |
| Handler.ConsoleTyping | src/events/handler.rs:58-67 | other characters go to the console input only on the Console tab, and `q`/`r` never do; Backspace drops the last character only there and does nothing on an empty input |
| Handler.TypeThenErase | src/events/handler.rs:58-67 | typing and erasing a character on the Console tab restores the state |
| Handler.EnterElsewhere | src/events/handler.rs:21-22 | Enter does nothing on any tab other than Console |
| Handler.SubmitOutcome | src/events/handler.rs:21-56 | Enter on Console keeps the loop going; a client that cannot be built or a failed call adds one banner; a decodable reply replaces the console output by its `result` |
| Handler.Submitted | src/events/handler.rs:21-56 | only the banners, the console output and the cached reply change, the banners by at most one message at the end, and a new banner leaves the output alone |
| Handler.TickClientFailure | src/events/handler.rs:76-85 | a tick whose client fails pushes "Can't contact HiveCore: ..." and stops, leaving the caches alone |
| Handler.TickRefreshesCurrentTab | src/events/handler.rs:87-117 | a tick refreshes exactly the current tab's caches; a failed fetch keeps its cache without blocking the later ones |
| Handler.Latest | src/events/handler.rs:89-91 | `if let Ok` keeps the fetched value when there is one and the cached one otherwise |
| Handler.Refreshed | src/events/handler.rs:87-117 | only the caches change, nothing cached is lost, and the cached reply is kept |
| Handler.StepKeepsProfile | src/events/handler.rs:11-120 | no event changes the profiles or the active index |
| Handler.Run | src/events/handler.rs:11-121 | the number of events handled never exceeds the events given, and the profile fields are kept |
| Handler.RunStopsAtFirstExit | src/events/handler.rs:11-121 | no event after the first `q` or `Stop` is handled |
| Handler.SubmitPrompt | src/events/handler.rs:21-56 | the new state is `Submitted` of the old |
| Handler.Refresh | src/events/handler.rs:72-118 | the new state and the result are `TickStep` of the old state |
| Handler.RefreshCaches | src/events/handler.rs:87-117 | the new state is `Refreshed` of the old |
| Handler.HandleEvent | src/events/handler.rs:12-120 | one turn of the loop is `Step` |
| Handler.HandleEvents | src/events/handler.rs:9-122 | the loop over a finite run of events ends in the state, and with the count, `Run` gives |
| Setup.Initial | src/tui/setup_panel.rs:35-44 | missing values become empty strings, the URL field is focused, nothing is accepted |
| Setup.FinalValues | src/tui/setup_panel.rs:46-52 | both values exactly when accepted, neither otherwise |
| Setup.Transition | src/tui/setup_panel.rs:60-104 | Tab, Backspace and characters never change the accepted flag; Enter and Esc never change the texts |
| Setup.FinishesExactly | src/tui/setup_panel.rs:60-104 | the form is finished exactly on a press of Enter (accepted) or Esc (not accepted); anything else leaves the flag alone, and a non-press changes nothing |
| Setup.AcceptOrAbort | src/tui/setup_panel.rs:46-72 | Enter then `final_values` gives both texts; Esc then `final_values` gives neither |
| Setup.TabToggles | src/tui/setup_panel.rs:73-78 | Tab switches the focused field without touching the texts, so two Tabs are the identity |
| Setup.CharEditsFocused | src/tui/setup_panel.rs:93-98 | a character is appended to the focused field only |
| Setup.BackspaceEditsFocused | src/tui/setup_panel.rs:79-92 | Backspace drops the focused field's last character, does nothing if it is empty, and never touches the other field |
| Setup.CharThenBackspace | src/tui/setup_panel.rs:79-98 | typing and erasing a character restores the panel |
| Setup.SetupPanel.constructor | src/tui/setup_panel.rs:35-44 | the new panel is `Initial` |
| Setup.SetupPanel.HandleEvent | src/tui/setup_panel.rs:60-104 | the new panel and the result are `Transition` of the old panel |
| ControlPanel.CounterSteps | src/tui/control_panel.rs:45-51 | increment adds one below 255 and wraps 255 to 0; decrement subtracts one above 0 and wraps 0 to 255 |
| ControlPanel.IncDecInverse | src/tui/control_panel.rs:45-51 | increment and decrement undo each other |
| ControlPanel.WrappingAdd | src/tui/control_panel.rs:45-47 | `wrapping_add` is the sum, or the sum minus 256 when it overflows |
| ControlPanel.WrappingSub | src/tui/control_panel.rs:49-51 | `wrapping_sub` is the difference, or the difference plus 256 when it underflows |
| ControlPanel.CounterAfter | src/tui/control_panel.rs:36-37 | Right and Left undo each other on the counter, and other keys leave it alone |
| ControlPanel.SelectionAfter | src/tui/control_panel.rs:38-39 | Up and Down keep a valid selection valid, and other keys leave it alone |
| ControlPanel.KeysAreIndependent | src/tui/control_panel.rs:33-43 | Left/Right never touch the selection, Up/Down never touch the counter, other keys touch neither |
| ControlPanel.App.constructor | src/tui/control_panel.rs:26-30 | url and token stored, counter 0, default workers |
| ControlPanel.App.IncrementCounter | src/tui/control_panel.rs:45-47 | the counter is `wrapping_add(1)` of the old |
| ControlPanel.App.DecrementCounter | src/tui/control_panel.rs:49-51 | the counter is `wrapping_sub(1)` of the old |
| ControlPanel.App.HandleKeyEvent | src/tui/control_panel.rs:33-43 | returns true exactly for `q`; url and token never change; counter and selection follow the key |
| ControlPanel.App.HandleEvent | src/tui/control_panel.rs:73-78 | only a key press reaches `handle_key_event`; other events change nothing and do not quit |
| WorkersWidget.DownStep | src/widgets/workers.rs:39-43 | `down` steps forward by one and wraps from the last index to 0 |
| WorkersWidget.UpStep | src/widgets/workers.rs:33-37 | `up` steps back by one and wraps from 0 to the last index |
| WorkersWidget.UpDownInverse | src/widgets/workers.rs:33-43 | `up` and `down` undo each other on every index of the list |
| WorkersWidget.UpIndex | src/widgets/workers.rs:33-37 | on a non-empty list the new index is inside it |
| WorkersWidget.DownIndex | src/widgets/workers.rs:39-43 | on a non-empty list the new index is inside it |
| WorkersWidget.Workers.constructor | src/widgets/workers.rs:46-57 | index 0 and the four default names |
| WorkersWidget.Workers.Up | src/widgets/workers.rs:33-37 | names unchanged; nothing happens on an empty list; otherwise the index moves to `UpIndex` |
| WorkersWidget.Workers.Down | src/widgets/workers.rs:39-43 | names unchanged; nothing happens on an empty list; otherwise the index moves to `DownIndex` |
| Dashboard.WorkerNames | src/ui/tabs/dashboard.rs:231-235 | the status keys other than "Unauthenticated", strictly ascending |
| Dashboard.WorkerListUnique | src/ui/tabs/dashboard.rs:70-71 | the worker list is determined by the status map, so the three places that build it agree |
| Dashboard.WorkerCountVersusList | src/ui/tabs/dashboard.rs:136-137 | `workers_len` is the list's length plus one when "Unauthenticated" is present |
| Dashboard.SelectedWorker | src/ui/tabs/dashboard.rs:135-196 | no worker is selected exactly when the cursor is past the end of the list |
| Dashboard.CursorPassesLastWorker | src/ui/tabs/dashboard.rs:135-196 | with "Unauthenticated" present, `focus_down` can move the cursor past the last listed worker, where the info panel shows no worker |
| Dashboard.GridMessage | src/ui/tabs/dashboard.rs:230-364 | "Loading worker statuses..." exactly when nothing is cached, "No workers online." exactly when no worker other than "Unauthenticated" exists |
| Dashboard.ConnectionDefault | src/ui/tabs/dashboard.rs:274-278 | a missing map or entry counts as 0 connections, and a present entry gives its count |
| Dashboard.ConnectionCount | src/ui/tabs/dashboard.rs:274-278 | a positive count comes from an entry of the cached map, and an entry gives its own count |
| Dashboard.BusyIffWorking | src/ui/tabs/dashboard.rs:280-289 | a worker is shown busy exactly when its last status is "Working"; no or an empty status list is "Unknown", never busy |
| Dashboard.LastStatus | src/ui/tabs/dashboard.rs:280-283 | the status is "Unknown" or one of the worker's statuses, and the last one whenever the worker has any |
| Dashboard.IsBusy | src/ui/tabs/dashboard.rs:280-289 | a busy worker has "Working" among its statuses |
| Dashboard.SaturatingSub | src/ui/tabs/dashboard.rs:295 | the result never exceeds the minuend; it is the difference when that is not negative and 0 otherwise |
| Dashboard.AsU16 | src/ui/tabs/dashboard.rs:303 | the `as u16` truncation is below 65536, congruent to the value modulo 65536, and the identity on smaller values |
| Dashboard.MaxSquaresPerLine | src/ui/tabs/dashboard.rs:292-301 | at least one square per line, and the largest count of 3-cell squares fitting in the width minus one |
| Dashboard.DivCeil | src/ui/tabs/dashboard.rs:303 | the least number of rows of `b` that hold `a` |
| Dashboard.SquareRows | src/ui/tabs/dashboard.rs:291-353 | rows are drawn only with connections and enough height; then there are `div_ceil` rows, each of 1 to `max` squares, all but the last full, summing to the count |
| Dashboard.SquareConstraints | src/ui/tabs/dashboard.rs:331-338 | for `k` squares, `2k` constraints: squares of 2 and gaps of 1 alternating, the last gap replaced by `Min(0)` |
| Dashboard.SquareIndex | src/ui/tabs/dashboard.rs:345-346 | square `i` is drawn at constraint index `2i`, which is a square |
| Dashboard.ModelKeyLine | src/ui/tabs/dashboard.rs:391-392 | a "Model: " key goes to the model column as the key with every "Model: " removed and no count; a key with only the leading one shows its rest |
| Dashboard.NodeKeyLine | src/ui/tabs/dashboard.rs:393-394 | a "Node: " key goes to the worker column as the key with every "Node: " removed, then ": " and its count; a key with only the leading one shows its rest |
| Dashboard.OtherKeyLine | src/ui/tabs/dashboard.rs:395-396 | any other key goes to the model column with its count |
| Dashboard.ColumnOf | src/ui/tabs/dashboard.rs:389-398 | a key goes to the worker column exactly when it starts with "Node:" and not with "Model:" |
| Dashboard.QueueLine | src/ui/tabs/dashboard.rs:390-397 | a "Model:" line is no longer than its key; any other line ends with ": " and the count |
| Dashboard.Columns | src/ui/tabs/dashboard.rs:389-398 | every key produces exactly one line in one of the two columns |
| Dashboard.ColumnsAppend | src/ui/tabs/dashboard.rs:389-398 | the partition of `a + b` is that of `a` followed by that of `b`, column by column |
| Dashboard.QueueColumns | src/ui/tabs/dashboard.rs:382-402 | the keys are visited in ascending order and partitioned; without a queue map each column has its placeholder line |
| Dashboard.OneLinePerQueue | src/ui/tabs/dashboard.rs:385-398 | the two columns together have one line per queue |
| Parsing.FilterTimes | src/utils/parsing.rs:17-21 | no more timestamps than array elements |
| Parsing.FilterTimesAppend | src/utils/parsing.rs:17-21 | filtering keeps the order |
| Parsing.FilterTimesKeepsAll | src/utils/parsing.rs:17-21 | nothing is dropped exactly when every element is a string that parses |
| Parsing.FilterTimesSound | src/utils/parsing.rs:17-21 | every timestamp kept is the parse of one of the input's strings |
| Parsing.PingTimes | src/utils/parsing.rs:16-23 | a value that is not an array gives no timestamps |
| Parsing.ParseWorkerPings | src/utils/parsing.rs:10-28 | non-object input gives the empty map; an object gives exactly its keys, each with its filtered timestamps |
| Parsing.DecodeAuthKeys | src/utils/parsing.rs:37 | decoding succeeds exactly when every element decodes, and then keeps them in order |
| Parsing.ParseAuthKeys | src/utils/parsing.rs:33-44 | non-array input gives the empty list |
| Parsing.ParseAuthKeysAllOrNothing | src/utils/parsing.rs:35-38 | either every element decoded, in order, or the result is empty |
| Http.BearerValue | src/utils/http.rs:21 | the header text is "Bearer " followed by the token |
| Http.BearerValidIffToken | src/utils/http.rs:21 | the header text is a valid header value exactly when the token is |
| Http.NewClient | src/utils/http.rs:19-34 | an invalid token fails with an invalid-header error before the client is built; success stores the base URL and one Authorization header |
| Http.JoinUrlSeam | src/utils/http.rs:38 | the URL is the base without trailing slashes, one slash, and the path without leading slashes; `get` and `post` share it |
| Http.JoinUrlIgnoresExtraSlashes | src/utils/http.rs:38 | extra trailing slashes on the base or leading slashes on the path change nothing |
| Http.JoinUrlPlain | src/utils/http.rs:38 | without slashes at the seam the URL is `base + "/" + path` |
| Http.JoinUrl | src/utils/http.rs:38 | the URL is at most one character longer than base and path; without a trailing slash on the base it starts with `base/`, and without a leading slash on the path it ends with `/path` |
| Http.ValidHeaderValue | src/utils/http.rs:21 | a valid header value holds no line break |
| Errors.Display | src/errors.rs:23-34 | the message of each kind is exactly its prefix ("HTTP error: ", "Invalid header: ", "JSON error: ", "Decoding error: ") followed by the cause's text |
| Models.DecodeAuthKey | src/models.rs:31-37 | an `AuthKey` decodes from an object with four string members, or from an array of four strings |
| Models.DecodeGenerateResponse | src/models.rs:51-56 | decodes exactly from an object with a string `result`; every other member goes into `extra` |
| Text.TrimEmptyIffWhitespace | src/clients/infer_client.rs:90-93 | a trimmed line is empty exactly when the line is all whitespace |
| Text.TrimIsInfix | src/clients/infer_client.rs:90 | trimming removes only leading and trailing whitespace |
| Text.Trim | src/clients/infer_client.rs:90 | the result is no longer than the line, and neither starts nor ends with whitespace |
| Text.TrimStart | src/clients/infer_client.rs:90 | the result is a suffix not starting with whitespace, and only whitespace is removed |
| Text.TrimEnd | src/clients/infer_client.rs:90 | the result is a prefix not ending with whitespace, and only whitespace is removed |
| Text.TrimEndMatchesPadded | src/utils/http.rs:38 | `trim_end_matches` removes every trailing repetition of the character |
| Text.TrimStartMatchesPadded | src/utils/http.rs:38 | `trim_start_matches` removes every leading repetition of the character |
| Text.TrimEndMatches | src/utils/http.rs:38 | the result is a prefix not ending with the character, and only that character is removed |
| Text.TrimStartMatches | src/utils/http.rs:38 | the result is a suffix not starting with the character, and only that character is removed |
| Text.RemoveAllAbsent | src/ui/tabs/dashboard.rs:392-394 | `replace(pat, "")` leaves a string without `pat` unchanged |
| Text.RemoveAllPrefix | src/ui/tabs/dashboard.rs:392-394 | `replace` removes a leading occurrence of the pattern |
| Text.RemoveAll | src/ui/tabs/dashboard.rs:392-394 | `replace(pat, "")` never lengthens the string |
| Text.NatToString | src/ui/tabs/dashboard.rs:394-396 | a count's text is non-empty decimal digits without a leading zero |
| Text.NatToStringValue | src/ui/tabs/dashboard.rs:394-396 | the decimal text of a count reads back as the count |
| Text.SortedUnique | src/ui/tabs/dashboard.rs:386-387 | two strictly sorted lists with the same elements are equal |
| Text.SortedList | src/ui/tabs/dashboard.rs:386-387 | sorting a key set gives a strictly ascending list of exactly its elements |

## Left out

- HTTP transport: sending requests, status checks, timeouts and `bytes_stream` are not modelled. Each call's outcome is a parameter (`Replies` in the handler, the stream items and `response` in the inference client). src/clients/manage_client.rs is not part of this model.
- JSON text syntax, UTF-8 decoding and `Value::to_string` are the parameters of a `Codec`. The RFC 3339 parser is the `TimeParser` parameter. JSON numbers are reals.
- `generate`, `list_models` and `generate_stream` of the inference client only send requests. The handler models `generate` through its reply. The contents of the request body, and the model chosen with `keys().next()`, are not modelled because HashMap iteration order is unspecified.
- Concurrency: the tokio mutex and the event spawner are not modelled. Events are handled one at a time from a finite sequence, and the sink stands for the locked `App`.
- Rendering: layouts, styles, colours and widgets are not modelled. From the dashboard only the computations are kept.
- Floating point: the worker-grid column count (`sqrt().ceil()`, src/ui/tabs/dashboard.rs:243-244) and the polling intervals of `App` are left out.
- Dashboard.SquareRows: computes `start_idx + max_squares_per_line` with unbounded integers, so the `u16` overflow of that sum, which the source could reach only with tens of thousands of squares, is not modelled. It also takes `layout.get(row_num)` to always succeed, because the layout is split into exactly that many rows.
- The action panel (`ActionPanelState`, `add_action_output_line`) is not defined in the modelled files. The inference client writes its output lines to an abstract `ActionSink`.
- src/main.rs, src/config.rs, clipboard and polling utilities, and the other tabs are not part of this model.
- AppState.App.FocusDown: the panic of a debug build on an empty focused list is not modelled. The model follows a release build on a 64-bit target, where `len() - 1` wraps to `usize::MAX`; `CursorDownBound` states what that allows.
- Terminal input: `event::read()?` in src/tui/setup_panel.rs:61 and src/tui/control_panel.rs:74 is not modelled, nor is its I/O error path. The event arrives as a parameter of `HandleEvent`.
- `Handler.Run`: the requirement that the active profile index is valid applies only if some event reads the profile (Enter or Tick). This is where the source indexes `profiles` and would panic otherwise.
- `make_headers` stores the `Node` header under its lower-case name, as header maps do.
- Rust's `trim()` is modelled with the Unicode `White_Space` characters. `replace` and `starts_with` work on characters rather than bytes.

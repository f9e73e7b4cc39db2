# Kbase session engine in Dafny

Kbase is a terminal browser for a knowledge base of shell commands. The user
types to filter the list, moves a cursor with the arrow keys or `k`/`j`, copies
the selected command with Ctrl+C, or presses `e` to edit the data file in an
external editor. Closing the editor reloads the file. This project models the
interactive session engine and proves properties of the model:

- `command.dfy` (module `Commands`): the command entry record.
- `text.dfy` (module `Text`): the parts of Go's `strings` package the core
  uses: ASCII lower-casing, substring and suffix tests.
- `config.dfy` (module `Config`): the fuzzy match, the query filter, the
  platform filter (the OS is a parameter) and the data-file name test. Both
  filters are loops that append into a fresh list. They are specified by one
  order-preserving selection function, `Select`. Lemmas about `Select` give
  subsequence, multiplicity and idempotence.
- `session.dfy` (module `Session`): the session record as a class `Model`
  whose fields the engine updates in place. It has `NewModel`, `SetStatus` and
  `ClearStatusIfExpired`. A value snapshot `State` of all fields and the
  session invariant `Inv` sit beside it. `Inv` says three things: the cursor
  indexes the filtered list (or is 0 when the list is empty), the filtered list
  is the filter of the catalog by the query, and error mode has an error.
- `update.dfy` (module `Update`): key handling and message dispatch. Each
  transition is written once as a function on `State` (`HandleKey`, `Step`,
  `Refiltered`, `Copied`, `Reloaded`). The methods on `Model` are proved to
  perform exactly that transition. The lemmas are stated about the functions.
- `view.dfy` (module `View`): the list height, the visible window, row
  markers, description truncation, the detail panel, the status line and the
  error view. The rendered frame is a `Screen` value made of these parts.

Time is an integer clock in milliseconds. 0 stands for Go's zero `time.Time`,
so an expiry of 0 means "no expiry". The clipboard outcome, the clock and the
`EDITOR` variable arrive as an `Env` value with each message. Standard output
is the sequence of lines a transition writes. The editor's exit is a message,
`EditorClosed`, that carries the reload outcome.

Two places in the source differ from the intended behaviour:

- The reload is lost. In `internal/tui/update.go:112-124` the editor callback
  assigns to the copy of the session captured when the editor was opened, and
  it returns no message. The running session therefore never sees the reload.
  The engine (`Update.Step`) models the intended reload. The as-written
  behaviour is `Update.StepAsWritten`. See "## Findings".
- Evaluation order is unspecified. In `return m, m.copyToClipboard()`
  (`internal/tui/update.go:52`), Go does not fix whether `m` is read before or
  after the call sets the status. The model takes the intended reading: the
  new status is part of the returned session.

A successful reload leaves `ParseError` at its old value, because the success
branch (`internal/tui/update.go:118-121`) never clears it. Error mode is left
by `Mode` alone.

## Model

| member | source | states |
|---|---|---|
| `Config.FuzzyMatch` | internal/config/config.go:333-355 | true iff the lower-cased query is a substring of the lower-cased command text, of the lower-cased description, or of some lower-cased tag |
| `Config.MatchesIgnoresCase` | internal/config/config.go:335-350 | changing the case of the query or of any searched field (command, description, each tag) never changes the match |
| `Config.MatchesLowered` | internal/config/config.go:335-350 | a match is decided on the lower-cased entry and the lower-cased query |
| `Config.FilterCommands` | internal/config/config.go:357-371 | the empty query returns the input itself; every query returns the order-preserving selection of the entries that match |
| `Config.EmptyQueryMatchesAll` | internal/config/config.go:359-361 | the empty query matches every entry, so the early return agrees with the loop |
| `Config.FilteredIsSelection` | internal/config/config.go:358-371 | for every query, including the empty one, the filter result is the selection of matching entries |
| `Config.FilteredIsSubsequence` | internal/config/config.go:363-370 | the filter result embeds into the input at strictly increasing positions: a subsequence in the original order |
| `Config.FilteredCount` | internal/config/config.go:364-368 | a matching entry occurs in the result exactly as often as in the input; a non-matching one does not occur |
| `Config.FilteredIdempotent` | internal/config/config.go:358-371 | filtering the result again with the same query returns it unchanged |
| `Config.FilterByPlatform` | internal/config/config.go:34-55 | returns the entries with no platform list or whose list names the given OS, in input order, each once (the inner search stops at the first hit) |
| `Config.PlatformFilterKeepsUsable` | internal/config/config.go:39-52 | a usable entry is kept exactly as often as it occurs, an unusable one never, and the result is a subsequence of the input |
| `Config.YamlFileNameIgnoresCase` | internal/config/config.go:299 | a directory entry is read iff its name ends with ".yaml" or ".yml" in any mix of case |
| `Session.InitialInv` | internal/tui/model.go:48-65 | a new session (catalog as both lists, empty query, cursor 0) satisfies the session invariant for every catalog |
| `Session.Model.NewModel` | internal/tui/model.go:48-65 | the record holds the path, the catalog as both lists, cursor 0 and an empty query; the error is stored; the mode is error exactly when an error is given |
| `Session.WithStatus` | internal/tui/model.go:67-71 | the status message is set and expires `duration` after `now`; no other field changes |
| `Session.Model.SetStatus` | internal/tui/model.go:67-71 | the fields become `WithStatus` of the old fields, and the invariant is kept |
| `Session.ClearedIfExpiredEffect` | internal/tui/model.go:73-79 | the state changes iff the expiry is set and now is strictly after it; the change empties the message and unsets the expiry and touches nothing else |
| `Session.NotYetExpired` | internal/tui/model.go:75 | at the expiry instant itself, or with no expiry, clearing changes nothing |
| `Session.ClearedIfExpiredIdempotent` | internal/tui/model.go:73-79 | clearing a second time, at the same or an earlier time, changes nothing more |
| `Session.Model.ClearStatusIfExpired` | internal/tui/model.go:73-79 | the fields become `ClearedIfExpired` of the old fields, and the invariant is kept |
| `Update.EditorCommand` | internal/tui/update.go:104-111 | the editor runs on the data file; the program is EDITOR when set and "vim" when EDITOR is empty |
| `Update.RefilteredInv` | internal/tui/update.go:127-134 | refiltering from any non-negative cursor leaves the cursor in range of the new list |
| `Update.StepPreservesInv` | internal/tui/update.go:15-32 | every message keeps the invariant: cursor in range (or 0 on an empty list), filtered list equal to the filter of the catalog by the query |
| `Update.RunPreservesInv` | internal/tui/update.go:15-32 | after any sequence of messages the invariant still holds |
| `Update.SessionCursorAlwaysInRange` | internal/tui/model.go:48-65 | every session started by `NewModel` keeps its cursor in range after any sequence of messages |
| `Update.ResizeAndTick` | internal/tui/update.go:17-25 | a resize sets only width and height and issues no command; a tick only clears an expired status and always schedules the next tick |
| `Update.QuitKeys` | internal/tui/update.go:36-39 | "ctrl+q" and "esc" quit in every mode and leave the state unchanged |
| `Update.ErrorModeKeys` | internal/tui/update.go:41-47 | in error mode no key changes the state; apart from the quit keys, only "e" issues a command, and it opens the editor |
| `Update.ErrorModeKeysKeepMode` | internal/tui/update.go:41-47 | in error mode every key, quit keys included, leaves the state unchanged |
| `Update.MoveUp` | internal/tui/update.go:57-60 | up and "k" decrement the cursor, floored at 0; nothing else changes |
| `Update.MoveDown` | internal/tui/update.go:62-65 | down and "j" increment the cursor, capped at the last row with no wrap-around; nothing else changes |
| `Update.QueryEdits` | internal/tui/update.go:67-78 | the query changes only by a backspace that removes its last character or by appending a printable ASCII character other than "e", "j", "k"; each change refilters |
| `Update.TypingAndBackspace` | internal/tui/update.go:50-81 | in normal mode an unbound printable character is appended and the list refiltered; backspace on a non-empty query removes exactly its last character and refilters, and on an empty query is a no-op; "e" opens the editor and leaves the session unchanged |
| `Update.RefilterClamp` | internal/tui/update.go:127-134 | refiltering keeps the cursor when it still fits and otherwise resets it to exactly 0; only the list and the cursor change |
| `Update.CopyOutcomes` | internal/tui/update.go:84-102 | no selection: nothing; clipboard works: "Copied!" for 2 s; clipboard fails: "Clipboard not supported" for 3 s and the command text on standard output |
| `Update.ReloadOutcomes` | internal/tui/update.go:112-122 | a successful reload gives normal mode, the new catalog and its filter for the unchanged query, keeps the cursor when it still fits and resets it to 0 otherwise, and changes no other field; a failure gives error mode with the error and keeps catalog, list and cursor |
| `Update.StatusExpiresOnFirstLaterTick` | internal/tui/update.go:22-25 | a status set at t for d stays through every tick up to t+d, is cleared by the first tick after it, and once cleared a tick at any later time changes nothing |
| `Update.ErrorModeIsStuckAsWritten` | internal/tui/update.go:112-124 | with the callback as written, a session in error mode stays in error mode after any sequence of messages |
| `Update.ReloadRecovers` | internal/tui/update.go:112-122 | with the intended reload, a parsing file returns an error-mode session to normal mode with the new catalog; as written it stays in error mode |
| `Update.UpdateFilter` | internal/tui/update.go:127-134 | the fields become `Refiltered` of the old fields |
| `Update.CopyToClipboard` | internal/tui/update.go:84-102 | the fields and the output lines are those of `Copied` |
| `Update.ReloadAfterEditor` | internal/tui/update.go:112-122 | the fields become `Reloaded` of the old fields |
| `Update.HandleKeyPress` | internal/tui/update.go:34-82 | the fields, the command and the output lines are those of `HandleKey` |
| `Update.Update` | internal/tui/update.go:14-32 | the fields, the command and the output lines are those of `Step`, and the invariant is kept |
| `View.ListHeight` | internal/tui/view.go:41-44 | the list height is max(height - 8, 5) |
| `View.ListWindow` | internal/tui/view.go:46-58 | 0 <= start <= end <= n, end - start == min(listHeight, n), start is the cursor-centred start clamped into the list, and a cursor in [0, n) lies in [start, end) |
| `View.Truncated` | internal/tui/view.go:64-69 | a description of at most 50 characters is unchanged; a longer one keeps its first 50 characters and ends with "..." (53 in all) |
| `View.WindowRows` | internal/tui/view.go:71-85 | one row per index in [start, end), showing that command and its shortened description; a row is painted as selected exactly when it is the cursor's, and when the cursor is in the window its row is the only selected one and starts with ">", every other row is normal and starts with " " |
| `View.RenderRows` | internal/tui/view.go:60-87 | the loop builds exactly the rows of `WindowRows` for [start, end) |
| `View.JoinLinesContains` | internal/tui/view.go:95 | every example appears in the joined example text |
| `View.DetailPanelChoice` | internal/tui/view.go:89-102 | a panel only for a valid selection: all examples if there are any, else the full description when it is longer than 50, else none |
| `View.StatusFor` | internal/tui/view.go:106-112 | the status message when non-empty, otherwise the fixed key-help line |
| `View.ErrorTextShowsErrorAndHint` | internal/tui/view.go:16-29 | the error view contains the parse error and the hint to press 'e' or Esc |
| `View.ViewOf` | internal/tui/view.go:9-115 | error mode renders only the error view; normal mode renders the search box, exactly the `WindowRows` of the window around the cursor (the window `ListWindow` computes, so the cursor's row is in it and is the only one selected and marked ">"), the detail panel and the status line |

## Left out

- File and YAML I/O is not modelled: `LoadCommands`, `InitDefaultConfig`, `InitAppConfig`, `LoadAppConfig`, `LoadAllCommands` and the `LoadCommandsFromDirectory` walk with its warnings. A load outcome is an input instead: a `LoadResult` holding a platform-filtered catalog or an error. Of the walk, only the file-name test is modelled.
- Path logic that depends on the environment and the OS is not modelled: `GetDefaultConfigPath`, `GetAppConfigPath` and `expandPath`.
- The clipboard write is a foreign call. Its outcome is the boolean `Env.clipboardWorks`. `fmt.Println` becomes the returned output lines.
- Spawning the editor is not modelled: reading `EDITOR` from the environment, `exec.Command` and `tea.ExecProcess`. The model keeps only the `ExecEditor` command that is returned and the reload that follows `EditorClosed`. The editor's own exit error is ignored, as in the source.
- The bubbletea runtime is external: `tea.Tick` scheduling, `Init` (which only returns the first tick) and `time.Now`. The tick message's own timestamp is unused, as in the source. The clock value in `Env` is used instead.
- `internal/tui/styles.go` is replaced by the plain labels `SelectedItem` and `NormalItem`. Borders, colours and the blank lines between the frame's parts are not modelled, so a frame is a `Screen` value, not one string.
- `cmd/kbase/main.go` is not part of this model. It is process wiring.
- `Text.ToLower` lower-cases ASCII letters only. Go's `strings.ToLower` also maps non-ASCII letters.
- View.Truncated, View.DetailFor: count characters, not UTF-8 bytes. Go's `len(desc)` and `desc[:50]` count bytes and can cut a multi-byte character.
- `Update.Run` folds the states of an event sequence. It does not collect the output lines. Each step's lines are in `Step`'s `Reply`.
- Go's 64-bit `int` fields and `time.Time` arithmetic are unbounded integers here. No reachable cursor, size or clock value comes near overflow.

## Findings

| source | as written | input that shows it | evidently intended | confidence | as-written member | corrected member |
|---|---|---|---|---|---|---|
| internal/tui/update.go:112-124 | the editor callback assigns `Mode`, `ParseError` and `AllCommands` on the session copy captured by `openEditor` and returns a nil message, so the running session never changes | a session in error mode; the user presses "e", fixes the file and closes the editor; the reload parses | the reload reaches the running session: normal mode, the new catalog, refiltered | not executed | `Update.ErrorModeIsStuckAsWritten` | `Update.ReloadRecovers` |

# airtablewatcher / airtabletasker in Dafny

A model of the decision logic around the Airtable client in the Go packages
`airtablewatcher` and `airtabletasker`:

- **Row accessor** (`rows.dfy`, module `Rows`): a row's fields are an untyped Go
  value (`interface{}`), modelled as the variant `Value` (nil, string, bool,
  float64, map, array, any other type). `GetField`, `GetFieldString` and
  `GetFieldTime` read a field with the same lenient coercions as the Go code.
- **Tasker** (`tasker.dfy`, module `AirtableTasker`): `StateOf` (Go's `getState`),
  `GetState`, the `Tasker` class with its defaults and its watcher registry
  (`RegisterFunction` appends to the `watchers` sequence), and the poll loop of
  `Start`. One pass of the loop is the function `Pass`, from the listed tasks
  and the registered watchers to the ordered sequence of action invocations
  (`Dispatch`: task position, task, watcher index). The loops themselves are the
  methods `Tasker.StartIteration` and `Tasker.Start`, proved against `Pass` and
  `RunAsWritten`.
- **Config lookup** (`config.dfy`, module `Config`): `GetConfig` as a first-match
  search (`FindValue`) over the listed config rows.

`wrappers.dfy` holds `Option`, Go's `error` (as its message), `Result` (what a
client call returned) and `Outcome` (Go's `(T, error)` pair, whose value is the
zero value `""` beside an error).

Inputs instead of calls: every Airtable client call (`ListRecords`,
`RetrieveRecord`, `airtable.New`) is replaced by the value it returned, given as
a parameter. `fmt.Sprintf("%f", x)` is the parameter `formatFloat`, and
`time.Parse(layout, s)` is the parameter `parse`, returning `None` for a parse
error. The infinite loop of `Start` is modelled over a finite sequence of
`Poll`s: what each iteration's listing returned, and whether the context was
done at that iteration's check. Action functions are opaque identifiers.
Invoking one is recorded as a `Dispatch`, and actions are assumed not to change
the registry.

Where the code differs from the system's documented design, the model follows the code:

- `DefaultBlankTime` is described as "year 1, zero month/day". The code writes
  `time.Date(1, 0, 0, ...)`, which Go normalises to 0000-11-30 00:00:00 UTC.
  The model uses that normalised value.
- The design describes watches with several trigger and cancel values, several
  tables, a cancellation supervisor, and a loop that stops on cancellation.
  The code has a single table, one trigger string per watcher, no cancel
  values, and a loop whose cancellation check has no effect (see Findings).
- `getState` only reads a string "State". A boolean or float state counts as
  no state, unlike `GetFieldString` (`StateVersusFieldString`).

## Model

| member | source | states |
|---|---|---|
| `Rows.GetField` | rows.go:24-33 | the stored value when the fields are a string-keyed map holding the key; nil when the fields are not such a map or lack the key |
| `Rows.GetFieldString` | rows.go:35-52 | a string comes back as stored; a bool gives "true" or "false", "true" exactly for true; a float64 gives its `%f` text; nil, absent and every other type give "" |
| `Rows.FieldStringEmpty` | rows.go:36-52 | the string form is "" exactly for an absent or uncoercible field, an empty string, or a float whose text is "" (never for a bool) |
| `Rows.GetFieldTime` | rows.go:54-66 | DefaultBlankTime when the string form is "" or does not parse with AirtableDateFormat, the parsed time otherwise; the result is always either the sentinel or a successful parse, and never an error |
| `AirtableTasker.StateOf` | tasker.go:154-165 | the "State" field when the fields are a map and State holds a string; "" in every other case, including a bool State |
| `AirtableTasker.StateVersusFieldString` | tasker.go:155-165 | getState agrees with the row accessor's string coercion exactly when the State is not a bool and is not a float with non-empty text |
| `AirtableTasker.GetState` | tasker.go:89-103 | a retrieval error is returned unchanged; otherwise an error exactly when the extracted state is "", and the state itself when it is not; errors come with "" |
| `AirtableTasker.FireSpec` | tasker.go:130-138 | the inner loop invokes exactly the watchers from index j on whose trigger equals the state, in increasing registration index |
| `AirtableTasker.PassSpec` | tasker.go:126-140 | in one pass a dispatch (task i, watcher j) happens exactly when task i's state is non-empty and equals watcher j's trigger (so a "" state fires nothing, even for a "" trigger, and every matching watcher fires, not just the first); dispatches are in strictly increasing (task, watcher) order, so none repeats |
| `AirtableTasker.RegisterAddsOnlyNewDispatches` | tasker.go:78-80 | after registering one more watcher, the dispatches of the earlier watchers in a pass are exactly those of before, in the same order; every new dispatch is of the new watcher |
| `AirtableTasker.RunAsWrittenSpec` | tasker.go:117-152 | Start's loop as written (`RunAsWritten`): each iteration with a successful listing runs Pass over it; the loop ends at the first failed listing, which invokes nothing; the context flag plays no part |
| `AirtableTasker.CancelledContextKeepsPolling` | tasker.go:142-149 | with the context already done at the first check, a second iteration still invokes the action again |
| `AirtableTasker.RunSpec` | tasker.go:117-152 | the loop as evidently intended (`Run`): each pass is Pass over a successful listing, the loop ends at the first failed listing, and no pass follows one whose context check saw cancellation |
| `AirtableTasker.RunStopsOnCancellation` | tasker.go:142-147 | if the context is done at iteration k, the intended loop runs at most k + 1 passes |
| `AirtableTasker.Tasker.constructor` | tasker.go:50-57 | PollInterval is 10 s, AirtableTable is the given name, Async is false, key and base as given, no watchers |
| `AirtableTasker.NewTasker` | tasker.go:50-64 | a connect error is returned with no tasker; otherwise a fresh tasker with the defaults above |
| `AirtableTasker.Tasker.RegisterFunction` | tasker.go:78-80 | appends exactly one watcher at the end; the earlier watchers and their order are unchanged and the length grows by one |
| `AirtableTasker.Tasker.StartIteration` | tasker.go:119-140 | a failed listing invokes nothing and stops the loop; a successful one invokes the actions exactly in the order of Pass |
| `AirtableTasker.Tasker.Start` | tasker.go:117-152 | the invocations over the observed iterations are those of RunAsWritten |
| `Config.FindValue` | config.go:12-16 | no result exactly when no row's Key string-coerces to the key; otherwise the Value of the first matching row in list order |
| `Config.GetConfig` | config.go:6-19 | a listing failure is returned unchanged, with ""; otherwise success exactly when some row's Key matches, with the Value of the first such row; else the "config key not found" error |
| `Config.ConfigIgnoresLaterRows` | config.go:12-15 | once some row k matches, rows appended after the list do not change the result |
| `Config.EmptyKeyMatchesKeylessRow` | config.go:13 | GetConfig("") returns the Value of the first row whose Key is absent, empty or of an uncoercible type, when no earlier row's Key coerces to "" |

## Findings

| source | as written | input that shows it | evidently intended | confidence | as-written member | corrected member |
|---|---|---|---|---|---|---|
| tasker.go:142-149 | `break` inside `select` leaves only the `select`, so `Start` never returns on `ctx.Done()` and goes on polling and invoking actions | a context already done at the first check, with every listing succeeding and a task in state "ToDo" with a "ToDo" watcher: the action runs again on the next iteration | stop the loop (return) once the context is done, after the current pass | high, not executed | `AirtableTasker.CancelledContextKeepsPolling` (with `AirtableTasker.RunAsWrittenSpec`) | `AirtableTasker.RunStopsOnCancellation` (with `AirtableTasker.RunSpec`) |

`Tasker.Start` models the loop as written. `Run` is the corrected loop.

## Left out

- The Airtable client (`airtable.New`, `ListRecords`, `RetrieveRecord`, `UpdateRecord`): these are remote HTTP calls through a foreign library. What each call returned is an input instead.
- `GetRows`, `GetRow`, `SetRow` (rows.go), and `SetState`, `GetTasks`, `connect` (tasker.go): these are thin wrappers over those client calls. `connect`'s result is `NewTasker`'s `connectErr` parameter.
- `fmt.Sprintf("%f", ·)` and `time.Parse`: these are float formatting and library parsing. They are the uninterpreted parameters `formatFloat` and `parse`.
- The `Async` branch of `Start` (`go watcher.actionFunction(...)`): this is concurrency. `StartIteration` gives the order in which actions are started. How concurrent actions interleave is not modelled, and neither is their sharing of the loop variable `task`.
- `time.Sleep(t.PollInterval)` and the wall-clock cadence: timing only. The loop is modelled over a finite sequence of observed iterations and does not capture its non-termination.
- What actions do: they are opaque and assumed not to change the registry. A callback that calls `RegisterFunction` during `Start` is not modelled.
- `DefaultAirtableTable` is declared but `NewTasker` does not use it. It is kept as a constant only.
- `attachment.go` is a JSON data struct with no behaviour. The `Watcher` struct of the `airtablewatcher` package is not part of this model: `GetConfig` takes the listing of its config table as input.

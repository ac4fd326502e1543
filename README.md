# Project launcher command loop

A model of the interactive loop in `main` of a small project launcher. The
program keeps a table of projects (id, name, path) in SQLite. At each prompt
it reads one command: `create`, `open`, `list`, `delete` or `exit`.

- `create` stores a trimmed name and a trimmed path under a fresh id.
- `open` fetches a project by id and strips surrounding quotes from a local
  copy of its path. It changes into that directory and launches the `code`
  editor there.
- `list` prints every stored row.
- `delete` removes a row by id and reports how many rows went.
- Anything else prints "Invalid command".

The model has four modules:

- `Wrappers` holds `Option` and `Result`.
- `Text` (text.dfy) holds the string normalisation:
  - `strings.TrimSpace`;
  - `strings.Trim` with the cutset of the two quote characters;
  - `strconv.Atoi` for Go's 64-bit `int`;
  - the `%d` formatting of ids and counts.

  Each is a pure function with lemmas that characterise it.
- `Store` (store.dfy) holds the project table, class `ProjectTable`:
  - a map from id to row;
  - the AUTOINCREMENT sequence value `lastId`, the largest id ever assigned;
  - a ghost set `Issued` of every id ever handed out.

  Its methods are the four SQL statements the loop issues.
- `CommandLoop` (loop.dfy) holds the loop itself, class `Session`:
  - the table;
  - what is left of standard input, as the sequence of strings `ReadString('\n')` returns;
  - what has been printed, as a sequence of chunks;
  - a log of external calls (directory change, editor launch);
  - whether `exit` ran.

  There is one method per command. `Step` is one iteration of the loop and
  `Run` is a bounded run of it. Four scenario methods (`DemoIds`,
  `DemoOpen`, `DemoDelete`, `DemoBadId`) check concrete runs: two creates
  get ids 1 and 2, opening a quoted path changes into the unquoted
  directory, a deleted project is not found afterwards, and a bad id is
  refused before the table is asked.

External effects are inputs to the model. An `Oracle` value says, for one
iteration, whether these fail and with which message:
- the SQL statement;
- `os.Chdir`;
- the editor launch.

The main results:
- Ids come from the AUTOINCREMENT sequence. Each id is above every id
  assigned before, deleted ones included, so an id whose row was deleted
  never comes back, whether it was deleted before a run or during it
  (`Insert`, `Run`, `DeletedStaysDeleted`).
- A bad id is refused before the store is touched (`ReadId`, `OpenCommand`,
  `DeleteCommand`).
- "Project not found" is distinct from a read error (`Fetch`, `OpenProject`).
- Quote stripping is characterised completely and applies only to the local
  copy of the path (`TrimQuotesProperties`, `TrimUnique`, `OpenCommand`).
- The editor runs exactly when the directory change succeeded (`OpenCallsOrder`).
- `delete` reports 1 or 0 and removes that row only (`Delete`, `DeleteCommand`).
- Each iteration has exactly the effect of the branch its trimmed line
  selects: the lines printed, the input consumed, the calls made and the
  new table (`Step`, `Execute`). `list`, `open`, `exit` and unknown commands
  leave the table as it was.
- A run is a record of iterations, each with exactly the effect of one
  `Step`, from where the previous one left the input, the output, the calls
  and the table to where the run leaves them (`Run`, `StepSpec`).
- The loop stops at the iteration whose line trims to `exit` and at no
  other (`Run`, `EndsAtExitLine`).

Two behaviours of the code are easy to misread; the model follows the code:
- End of input. The read error of `ReadString` is ignored, so at end of input
  the loop reads "" and prints "Invalid command" again and again. It never
  stops there (`EmptyLineIsUnknown`, `Step`).
- Row order. `list` issues `SELECT` without `ORDER BY`, so the order of the
  rows is not promised. `SelectAll` returns every row exactly once in any
  order.

## Model

| member | source | states |
|---|---|---|
| Text.TrimBare | main.go:44 | `Trim` (and with it `TrimSpace` and `TrimQuotes`, its instances for white space and for quotes): trimming leaves no cut character at either end of the result. |
| Text.TrimFramed | main.go:44 | `Trim`: the trimmed result is a contiguous piece of the input, and everything removed before and after it is cut characters. |
| Text.TrimUnique | main.go:44 | `Trim`: for cut-only text on both sides of a middle with no cut character at either end, Trim returns exactly that middle. With TrimBare and TrimFramed this pins Trim down. |
| Text.TrimIdempotent | main.go:85 | Trimming twice gives the same result as trimming once. |
| Text.TrimQuotesProperties | main.go:85 | The stripped path neither starts nor ends with `"` or `'`. It is a contiguous piece of the stored path with only quotes cut off, and stripping it again changes nothing. |
| Text.TrimQuotesKeepsInterior | main.go:85 | Quote runs at the two ends go. Quotes inside the path stay. |
| Text.TrimSpaceLine | main.go:50-51 | A line read with its newline trims to its text when that text has no white space at either end. |
| Text.Atoi | main.go:69-73 | A parsed id comes from text of the form optional sign then digits, and lies in Go's 64-bit `int` range. Its value is the decimal value of the digits, negated exactly when the sign is `-` (so "-0" is 0). Without `-` the text parses exactly when that value is at most 2^63-1; with `-` exactly when it is at most 2^63. |
| Text.NatDigits | main.go:63 | `%d` of a natural number is a non-empty digit string whose decimal value is that number, with no leading zero: a string starting with `0` is "0" itself. |
| Text.ParseFormatted | main.go:63 | `FormatInt`, the `%d` of a signed id or count: parsing what `%d` prints for any 64-bit `int` gives the number back. |
| Store.ProjectTable.constructor | main.go:29-33 | A new table is empty, its sequence is 0 and no id has been issued. |
| Store.ProjectTable.Insert | main.go:57-62 | A driver error changes nothing. An exhausted sequence (2^63-1) fails with SQLITE_FULL and changes nothing. Otherwise the new id is sequence+1, above every id ever issued, and it is added as the only new row, holding the given name and path. |
| Store.ProjectTable.Fetch | main.go:76-83 | A read error is reported as such. An absent id is NoRows. A present id returns its row, whose id is the requested one. |
| Store.ProjectTable.SelectAll | main.go:102-116 | Without an error the result lists every stored row exactly once, each as stored, in no promised order. |
| Store.ProjectTable.Delete | main.go:128-133 | Without an error exactly the row with that id goes and the count is 1 if it existed, else 0. On an error the rows stay. The sequence never changes. |
| CommandLoop.Dispatch | main.go:46-140 | A command is selected only by its exact word. Every other line is the default branch. |
| CommandLoop.DispatchKeyword | main.go:47-136 | Each of the five words selects its own branch. |
| CommandLoop.DispatchPadded | main.go:43-46 | A command word with white space around it selects the same branch as the bare word. |
| CommandLoop.OpenCallsOrder | main.go:76-99 | `OpenOutcomeOf`, the decision table of `open` once the id parsed: `open` changes directory only when the project was found, always into its quote-stripped path. It launches the editor exactly when the directory change succeeded. |
| CommandLoop.EvolvesTransitive | main.go:41-142 | The way one iteration may change the table (`Evolves`: the sequence never goes back, surviving rows keep their contents, new rows get ids above the old sequence, deleted ids get no row again) composes over two iterations. |
| CommandLoop.ChainExtend | main.go:41-142 | A trace of moments in which every later table evolved from every earlier one stays so when one more iteration is appended. |
| CommandLoop.ReplaysExtend | main.go:41-142 | `Replays`, the record of a run in which iteration `k` goes from moment `k` to moment `k + 1` as `StepSpec` says: one more iteration that starts where the record ends extends it. |
| CommandLoop.EndsAtExitLine | main.go:136-137 | In a recorded run, no iteration but the last read a line that trims to `exit`, and the loop has ended exactly when the last one did. |
| CommandLoop.DeletedStaysDeleted | main.go:128-133 | Along such a trace, an id that was issued and has no row at one moment has no row at any later moment. |
| CommandLoop.StopsAtExitSnoc | main.go:136-137 | A further iteration keeps the record of the loop ending exactly at the `exit` branch. |
| CommandLoop.EmptyLineIsUnknown | main.go:43-44 | At end of input the line read is "" and selects the default branch, so the loop does not stop. |
| CommandLoop.Session.constructor | main.go:39 | A session starts with the given table and input, nothing printed, no calls made, not exited. |
| CommandLoop.Session.ReadLine | main.go:43 | A read consumes the next line, or yields "" at end of input. |
| CommandLoop.Session.Write | main.go:42 | Printing appends one chunk to the output. |
| CommandLoop.Session.CreateCommand | main.go:47-63 | `CreateEffect`: prints both prompts. Stores the trimmed name and the trimmed path under sequence+1 as the only new row, then prints that id. On a driver error or a full sequence it prints the error and leaves the table as it was. |
| CommandLoop.Session.ReadId | main.go:66-73 | Prints the id prompt, consumes one line and parses it trimmed. It prints "Invalid ID format" exactly when parsing fails. |
| CommandLoop.Session.OpenCommand | main.go:65-99 | `OpenEffect`: the table is unchanged in every case. A bad id prints "Invalid ID format" and makes no call. Otherwise the outcome, the printed lines and the external calls are those OpenOutcomeOf gives for the parsed id. |
| CommandLoop.Session.OpenProject | main.go:75-99 | "Project not found" for an absent id and "Error fetching project:" for a read error, both without calls. Otherwise it prints the quote-stripped path and changes into it. The editor is launched only after a successful change, and its failure is reported. |
| CommandLoop.Session.ListCommand | main.go:101-116 | `ListEffect`: on a query error it prints "Error fetching projects:" and the message. Otherwise it prints the header, then one `id\tname\tpath` line per row of a listing of the whole table. |
| CommandLoop.Session.WriteRows | main.go:109-116 | The cursor loop prints `RowLines` of the rows: one `RowLine` (the `%d\t%s\t%s\n` line of main.go:115) per row, in the order given. |
| CommandLoop.Session.DeleteCommand | main.go:118-134 | `DeleteEffect`: a bad id prints "Invalid ID format" and leaves the table alone. A driver error prints it and leaves the table alone. Otherwise exactly that row goes and "1 project(s) deleted" or "0 project(s) deleted" is printed. The sequence never changes. |
| CommandLoop.Session.Step | main.go:41-141 | `StepSpec`: prints the prompt, reads one line and takes the branch `Dispatch` selects for the trimmed line. After the prompt, that branch has exactly the effect of its command: `CreateEffect`, `OpenEffect`, `ListEffect` or `DeleteEffect`, with the lines printed, the input consumed, the calls made and the new table. `exit` prints nothing more and ends the loop; the default branch prints "Invalid command". Only `create` and `delete` change the table, only `open` makes external calls, and end of input is the default branch. |
| CommandLoop.Session.Execute | main.go:46-141 | The branch for the command: its outcome names that command, and it has that command's exact effect on output, input, calls and table, as in Step. |
| CommandLoop.Session.Run | main.go:41-142 | Returns the outcome of each iteration and the trace of moments (input left, output printed, calls made, table). The trace starts at the session as it was and ends at the session as it is. Iteration `k` went from moment `k` to moment `k + 1` exactly as `StepSpec` says with oracle `k`. The loop runs until the iteration that took the `exit` branch, and no further, or until the oracles run out. The tables form a chain: between any two moments every new row has an id above the earlier sequence, a surviving row keeps its contents, and an id deleted at any moment, before or during the run, never has a row again. |

## Left out

- Opening the database file and creating the table (main.go:22-37): the session starts from a given table, and those two startup failures are not modelled.
- The SQLite engine itself is not modelled: an abstract map plus the sequence stands in for it. Driver errors are Oracle messages, except SQLITE_FULL, whose text is SQLite's generic message; the driver's decoration of it is not part of this model.
- The errors of `LastInsertId` and `RowsAffected`, which the code discards (main.go:62, main.go:133), are not modelled; the model takes both to succeed.
- `os.Chdir` and running `code .` are not modelled (main.go:88-97): they are external effects. The model records them in a call log, with an Oracle for their outcome; the editor's own output on the inherited streams is not modelled.
- `bufio` reading (main.go:39, main.go:43): input is the sequence of strings `ReadString` returns, and a final partial line counts as one element.
- Run: the unbounded `for` loop is modelled by a run bounded by the number of Oracle entries.
- SelectAll: does not state an order, because the query has no ORDER BY.
- ListCommand: a failing per-row `Scan` (main.go:111-113) and a cursor error ending `rows.Next()` early are not modelled; with NOT NULL text columns and integer ids every row scans.
- Resource handling is not modelled (`defer db.Close()`, and `defer rows.Close()` at main.go:107, whose deferred calls pile up until `main` returns, although each cursor is already closed when `rows.Next()` returns false at main.go:109), nor are the JSON tags (main.go:16-18), because neither affects what the loop prints or stores.
- Text.TrimSpace: white space is restricted to its Latin-1 members (tab, line feed, vertical tab, form feed, carriage return, space, U+0085, U+00A0); other Unicode spaces are not trimmed in the model.
- Text.Atoi: models `strconv.Atoi` on a 64-bit platform; the error value's text is not modelled, since the loop prints a fixed message.

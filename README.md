# CoQuery query history and SQL extraction, in Dafny

CoQuery is a browser SQL editor over an embedded SQLite database, with a
language model (Gemini) that explains queries and writes SQL from natural
language. Almost all of `script.js` is glue: the DOM, CodeMirror, SQL.js and
`fetch`. This project models the two pieces of it that carry logic of their own.

1. **The query history** of the `CoQuery` object. It is a list of recorded
   queries (`queryHistory`) and a cursor (`historyIndex`) moved by the
   previous/next buttons.
   - `addToHistory` ignores the empty string and an immediate repeat of the
     last entry. Anything else is appended and becomes the selected entry.
   - `showPreviousQuery` and `showNextQuery` move the cursor by one within
     bounds. They put the newly selected entry into the editor.
   - The entries come from three callers. `initializeCodeMirror` records the
     editor's initial text as it is. `executeQuery` records the trimmed editor
     text before running it. `generateSQLFromPrompt` records the SQL it inserts.

   `session.dfy` holds the class `CoQuery`. Its fields are `queryHistory` and
   `historyIndex`, and its methods mirror the source's. Each method is proved
   against the pure model in `history.dfy`, which is a `History` value with
   `Add`, `Back` and `Forward`. The class invariant `Valid()` says three things.
   No entry is empty. No entry repeats its predecessor. The cursor is -1
   exactly when the list is empty, and otherwise it indexes an entry.
   The main lemma, `EntriesAreCollapsedRecording`, says the list depends only
   on what was recorded. It equals the recorded strings with the empty ones
   dropped and runs of equal neighbours merged, whatever navigation happened
   in between.

   A repeat of the last entry changes nothing, not even the cursor. So after
   "previous", re-running the last query leaves the cursor on the earlier
   entry while the editor holds the last one. `Session.Walkthrough` shows this
   sequence.

2. **SQL extraction from a model reply** (`fence.dfy`). `callGeminiForSQL`
   returns `text.match(/```sql\n([\s\S]*?)```/i)`. If that matches, it returns
   group 1 trimmed. Otherwise it returns the whole text trimmed. A reply
   without text counts as `''`.
   - The regular expression is modelled as a declarative predicate
     (`IsMatch`). The match a JavaScript engine reports is the leftmost one,
     and among those the shortest (`IsReportedMatch`).
   - The function `ExtractSql` finds the first opening fence and then the
     first closing fence after it. Lemmas tie it to the declarative
     definition in both directions.
   - The `i` flag affects only the letters of `sql`. The fence must be
     followed by a line feed, so "```sql\r\n" does not open a block.
   - `trim` is modelled with the full ECMAScript whitespace and line
     terminator set (`text.dfy`).

## Model

| member | source | states |
|---|---|---|
| `JsText.Trim` | script.js:660 | `trim` returns a slice of its input with only whitespace cut from either end, and neither end of the result is whitespace |
| `JsText.TrimmedIsFixed` | script.js:660 | a string with no whitespace at either end is unchanged by `trim` |
| `JsText.TrimIdempotent` | script.js:660 | trimming an already trimmed string changes nothing |
| `JsText.TrimEmptyIff` | script.js:414-415 | the trimmed editor text is empty exactly when the text is all whitespace, which is when `executeQuery` refuses to run |
| `SqlFence.FirstOpen` | script.js:659 | finds the leftmost "```sql\n" (letters in any case) at or after a position, or reports that there is none |
| `SqlFence.FirstClose` | script.js:659 | finds the first "```" at or after a position, which is where the lazy `[\s\S]*?` stops, or reports that there is none |
| `SqlFence.FindSqlBlock` | script.js:659 | when the regular expression can match, returns the match an engine reports (leftmost start, then shortest body); otherwise returns none, and then no match exists at all |
| `SqlFence.ExtractSql` | script.js:656-660 | the extracted SQL never starts or ends with whitespace, and a reply without text yields the empty string |
| `SqlFence.ExtractFromBlock` | script.js:659-660 | when the regular expression matches, the result is group 1 of the reported match, trimmed |
| `SqlFence.ExtractWithoutBlock` | script.js:659-660 | when the regular expression cannot match, the result is the whole reply, trimmed |
| `SqlFence.BlockBodyHasNoFence` | script.js:659 | the extracted block body never contains "```" |
| `QueryHistory.Initial` | script.js:9-10 | a new session has no entries and a cursor of -1, which satisfies the invariant |
| `QueryHistory.Add` | script.js:704-710 | keeps the invariant. Earlier entries never change. The list is unchanged, cursor included, exactly when the string is empty or equals the last entry. Otherwise the string is appended and the cursor moves to it. A non-empty string is always the last entry afterwards |
| `QueryHistory.Back` | script.js:712-718 | keeps the invariant and the entries. Moves the cursor back by one when it is above 0, and otherwise changes nothing |
| `QueryHistory.Forward` | script.js:720-726 | keeps the invariant and the entries. Moves the cursor forward by one when it is below the last index, and otherwise changes nothing |
| `QueryHistory.Selected` | script.js:715-716 | the entry shown in the editor after a move is one of the entries and is never empty |
| `QueryHistory.BackForwardInverse` | script.js:712-726 | "previous" then "next" restores the state, and so does "next" then "previous", whenever the first move happens |
| `QueryHistory.Step` | script.js:704-726 | every history operation keeps the invariant |
| `QueryHistory.Replay` | script.js:704-726 | any sequence of operations keeps the invariant and only ever extends the list |
| `QueryHistory.NonEmpty` | script.js:705 | reference definition: the recorded strings with the empty ones dropped |
| `QueryHistory.Dedup` | script.js:706 | reference definition: adjacent repeats merged, keeping the first element. The result has no equal neighbours and no new elements |
| `QueryHistory.EntriesAreCollapsedRecording` | script.js:704-726 | from a fresh session, the entries are exactly `Dedup(NonEmpty(recorded strings))`, whatever navigation happened in between |
| `QueryHistory.NavigationKeepsEntries` | script.js:712-726 | the previous/next buttons never change the list |
| `QueryHistory.BackTimes` | script.js:712-718 | pressing "previous" any number of times keeps the invariant and the entries |
| `QueryHistory.BackTimesStopsAtFirst` | script.js:712-718 | `n` presses of "previous" move the cursor back `n` entries, stopping at the first |
| `Session.CoQuery.constructor` | script.js:3-13 | a new `CoQuery` starts from the empty history with cursor -1, and its synchronous start-up through `initializeCodeMirror` leaves exactly `Add` of that state with the editor's initial text |
| `Session.CoQuery.AddToHistory` | script.js:704-710 | keeps `Valid()`, and the new state is `Add` of the old state |
| `Session.CoQuery.ShowPreviousQuery` | script.js:712-718 | keeps `Valid()`, and the new state is `Back` of the old state. It shows the newly selected entry exactly when the cursor moved, and shows nothing otherwise |
| `Session.CoQuery.ShowNextQuery` | script.js:720-726 | keeps `Valid()`, and the new state is `Forward` of the old state. It shows the newly selected entry exactly when the cursor moved, and shows nothing otherwise |
| `Session.CoQuery.InitializeCodeMirror` | script.js:152-195 | records the editor's initial text untrimmed |
| `Session.CoQuery.ExecuteQuery` | script.js:413-442 | blank text means "enter a query" and no database means "select a database", and neither touches the history. Otherwise the trimmed text is recorded before execution and becomes the last entry |
| `Session.CoQuery.GenerateSqlFromPrompt` | script.js:668-696 | a blank prompt, a blank API key, a failed call or an empty extraction leaves the history alone. Otherwise the SQL extracted from the reply goes into the editor and becomes the last entry |

## Left out

- Everything except the history and the SQL extraction: the Gemini HTTP requests and their JSON, API-key storage in `localStorage`, SQL.js loading, fetching the database and its retry loop, schema and result rendering, markdown rendering, the system log, `clearAll`, `flashEditor`, the event wiring and `displayDecomposedParts`. These are browser I/O, timers and foreign libraries.
- `setDefaultQuery`: a lookup of two fixed query texts.
- The CodeMirror editor is outside the model. `ExecuteQuery` receives the editor's text as a parameter. `ShowPreviousQuery`, `ShowNextQuery` and `GenerateSqlFromPrompt` return the text they would pass to `setValue`.
- The constructor and `InitializeCodeMirror` take the initial editor text as a parameter instead of the fixed query the source hard-codes.
- `GenerateSqlFromPrompt` receives the outcome of the Gemini request as a `SqlCall` parameter. Only its two early returns for a blank prompt and a blank key decide whether the request is made at all.
- `ExtractSql`: the reply text is modelled as an optional string. A reply whose text field holds a truthy non-string value would make `text.match` throw in the source. That case is not modelled.
- `ExecuteQuery` does not model the database's answer. The history is updated before execution, so the answer cannot affect it.
- Strings are sequences of Unicode scalar values rather than UTF-16 code units. `trim` and the fence search give the same results either way, because every character they look for lies in the Basic Multilingual Plane. String equality agrees because UTF-16 encodes well-formed strings injectively. A JavaScript string holding a lone surrogate cannot be represented.
- The constructor runs `init` only as far as its first `await` (script.js:57-61): event wiring is left out and `initializeCodeMirror` is modelled. The database loading and key restoring that follow the `await` do not touch the history.
- `GenerateSqlFromPrompt` is one atomic step, while the source awaits the request (script.js:684) between its prompt and key checks and its `addToHistory` (script.js:688). Other button presses may change the history meanwhile. The atomic step is still equivalent, because line 688 applies `Add` to whatever state is current when the reply arrives, and that is the state `GenerateSqlFromPrompt` is called on.

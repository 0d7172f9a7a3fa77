# ERPulse query core in Dafny

ERPulse is a chat front end to a small SQLite store. A language model writes SQL, and a
tool runs it through a guard and formats the rows as a `|` grid. That text goes back to the
agent; the page reads a grid back from the agent's last message and logs it. This project
models the sequential logic on both sides of the language model and proves its properties.

- **Text** (`text.dfy`) holds the JavaScript string operations the core relies on:
  - `split` on one character, `join`, `trim` over the ECMAScript white-space set, `includes`;
  - `filter` and `map`;
  - ASCII upper-casing, as a non-unicode `/i` regular expression compares letters;
  - decimal rendering of integers.
- **Guard** (`guard.dfy`) is the denylist of `execute`: seven case-insensitive,
  unanchored patterns tested with `some`. A pattern is stated as a declarative match
  (`Matches`) and checked by a left-to-right scan (`Test`); the two are proved to agree.
- **GuardLimits** (`guard_limits.dfy`) shows what the word list lets through: an ordinary
  `UPDATE t SET ...` and `REPLACE INTO`.
- **Database** (`database.ts` side, `database.dfy`):
  - the tables are maps from primary key to row, and `REPLACE INTO` is an upsert by id;
  - `Store` is the in-memory database, whose `Seed` method runs the upsert loops;
  - `Execute` is the guard followed by an abstract driver (`Engine`). The driver answers
    rows, an SQL error or nothing before the timeout, and it leaves the tables as the
    statement wrote them. A refused query leaves both tables unchanged.
- **Actions** (`actions.dfy`):
  - the `get_from_db` tool body: the grid, the five reply shapes, and `JSON.stringify` of a string;
  - the system-message step of `message`.
- **Page** (`page.dfy`) holds `parseTableData` and the table-detection test. It also has
  `sendMessage` as a pure transition of the page state: the transcript, the two capped
  logs and the query counter.
- **RoundTrip** (`roundtrip.dfy`) reads the parser against the formatter. It proves when
  the parser gives the rows back, and which tool replies the page shows as a table when
  the agent passes them on unchanged.
- **Performance** (`performance.dfy`) covers the performance panel:
  - the three stable orders;
  - the fastest query, the totals and the average;
  - the colour band of an execution time.

Two facts about the code that the model keeps:
- The guard patterns allow only white space between the two keywords. So
  `UPDATE customer SET id = 0` passes the guard (`GuardLimits.OrdinaryUpdatePasses`) and
  reaches the driver, which may write.
- A store error settles `execute` as resolved, with the message `SQL Error: ` and the
  error text. Only the timeout rejects.

## Model

| member | source | states |
|---|---|---|
| Text.Split | src/app/page_backup.tsx:100 | `split` on one character gives at least one piece, none holding the separator |
| Text.SplitJoin | src/app/page_backup.tsx:100-101 | splitting a join on a character no part holds gives the parts back |
| Text.JoinSplit | src/app/page_backup.tsx:100 | joining the pieces of a split with the separator gives the text back |
| Text.TrimSpec | src/app/page_backup.tsx:105-108 | `trim` removes exactly the white space at both ends: the result is a slice of the input with only white space around it, and starts and ends with no white space |
| Text.TrimPadded | src/app/page_backup.tsx:108 | one space on either side of a trimmed value is exactly what `trim` removes |
| Text.TrimAllSpace | src/app/page_backup.tsx:56 | `!input.trim()` holds exactly when the input is white space only |
| Text.Filter | src/app/page_backup.tsx:101 | `filter` keeps only elements that pass, taken from the input, never more of them |
| Text.FilterAppend | src/app/page_backup.tsx:101 | filtering a concatenation filters each part |
| Text.IncludesChar | src/app/page_backup.tsx:101 | `includes` of a one-character string holds exactly when the character occurs |
| Text.NatToStringValue | src/app/actions.ts:43 | the decimal text of a count reads back as that count |
| Guard.IsDangerous | src/app/database.ts:98-108 | the guard flags a query exactly when one of the seven patterns matches somewhere in it |
| Guard.Test | src/app/database.ts:108 | `pattern.test(sql)` as a left-to-right scan; see Guard.TestIsMatches |
| Guard.MatchesFromIsMatchLater | src/app/database.ts:108 | the left-to-right scan finds a match from position i exactly when the pattern matches at some position from i on |
| Guard.TestIsMatches | src/app/database.ts:108 | `pattern.test(sql)` holds exactly when the pattern matches somewhere (unanchored) |
| Guard.SpacedKeywordsRefused | src/app/database.ts:98-112 | any listed keyword pair, in any case, with any non-empty white space between, anywhere in the query, makes it refused |
| Guard.TruncateRefused | src/app/database.ts:101 | `TRUNCATE` in any case anywhere makes a query refused |
| Guard.TruncateInLiteralRefused | src/app/database.ts:100-108 | `SELECT * FROM t WHERE c = 'truncate'` is refused: the guard works on substrings |
| GuardLimits.PassesWithout | src/app/database.ts:98-108 | a query with none of the letter pairs BL, FR, TR, NS and no UPDATE...SET match passes the guard |
| GuardLimits.UpdateNotBeforeSet | src/app/database.ts:105 | at any position, when the first character after the white space that follows does not begin `SET`, the UPDATE pattern does not match there |
| GuardLimits.UpdateTableSet | src/app/database.ts:105 | `UPDATE name SET ...` with any name that has no white space and does not begin with `SET`: the leading `UPDATE` is no match of the UPDATE pattern |
| GuardLimits.UpdateOnlyFirst | src/app/database.ts:105 | a query whose only `UP` letter pair is its first two characters, and whose eighth character is neither white space nor `S`, has no match of the UPDATE pattern anywhere |
| GuardLimits.OrdinaryUpdatePasses | src/app/database.ts:105 | `UPDATE customer SET id = 0` passes the guard |
| GuardLimits.ReplaceIntoPasses | src/app/database.ts:98-106 | `REPLACE INTO t VALUES (1)` passes the guard |
| Database.ReplaceAll | src/app/database.ts:24-89 | `REPLACE INTO` of rows one after another; see the four lemmas below |
| Database.ReplaceAllKeys | src/app/database.ts:24-89 | after upserting rows the table's keys are its old keys and every row's key |
| Database.ReplaceAllKeeps | src/app/database.ts:24-89 | a key that no upserted row has keeps its old row |
| Database.ReplaceAllLast | src/app/database.ts:24-89 | under each upserted key is the last upserted row with that key |
| Database.ReplaceAllOverlays | src/app/database.ts:24-89 | upserting into a table equals overlaying the upserted rows on it |
| Database.ReplaceAllTwice | src/app/database.ts:24-89 | upserting the same rows twice gives what upserting once gives |
| Database.NumberedRows | src/app/database.ts:24-89 | rows numbered 1..n fill an empty table with exactly keys 1..n, row k under key k+1 |
| Database.SeededCustomers | src/app/database.ts:24-46 | seeding an empty customer table leaves exactly ids 1..20, each with its listed row |
| Database.SeededOrders | src/app/database.ts:56-89 | seeding an empty order table leaves exactly ids 1..30, each with its listed row |
| Database.SeedOrdersReferToCustomers | src/app/database.ts:56-85 | every seeded order's customer id is between 1 and 20 |
| Database.SeededOrdersHaveCustomers | src/app/actions.ts:71 | after seeding, every order's customer id is a key of the customer table |
| Database.SeedIdempotent | src/app/database.ts:8-92 | seeding twice, from any starting tables, leaves the tables seeding once leaves |
| Database.Store.constructor | src/app/database.ts:6 | a fresh in-memory store has empty tables |
| Database.Store.ReplaceCustomers | src/app/database.ts:24-46 | the upsert loop leaves the customer table equal to the upsert of the rows, the order table unchanged |
| Database.Store.ReplaceOrders | src/app/database.ts:53-89 | the upsert loop leaves the order table equal to the upsert of the rows, the customer table unchanged |
| Database.Store.Seed | src/app/database.ts:8-92 | `seed` upserts the fixed customers, then the fixed orders |
| Database.Store.Execute | src/app/database.ts:94-156 | `execute` settles as `Outcome` says for the driver's answer; a refused query leaves both tables unchanged; otherwise the tables become what the statement left |
| Database.Outcome | src/app/database.ts:108-148 | refused queries resolve to the refusal; only a late driver rejects, with the timeout message; rows resolve unchanged with `resultCount` equal to their number; an SQL error resolves to `SQL Error: ` and its message |
| Actions.Render | src/app/actions.ts:38 | a looked-up value as cell text, a falsy one as `''`; see Actions.RenderEmptyIffFalsy |
| Actions.Grid | src/app/actions.ts:34-41 | the header, separator and data lines; see Actions.GridLines and Actions.GridIsJoin |
| Actions.Json | src/app/actions.ts:47 | `JSON.stringify` of a string; see Actions.JsonRoundTrip and Actions.JsonOfPlain |
| Actions.Reply | src/app/actions.ts:43-52 | the reply for each way `execute` settles; see Actions.ReplyKinds and Actions.ToolReplies |
| Actions.ToolReply | src/app/actions.ts:25-54 | the tool body; see Actions.ToolReplies and Actions.MissingSql |
| Actions.Lookup | src/app/actions.ts:38 | `row[key]` is missing exactly when no property has that name, and otherwise is that property's value |
| Actions.RenderEmptyIffFalsy | src/app/actions.ts:38 | a looked-up value renders as an empty cell exactly for missing, null, 0 and '' |
| Actions.GridLines | src/app/actions.ts:34-41 | when no key of the first row and no rendered cell holds a newline, the grid splits into the header, the separator and one line per row: 2 + n lines |
| Actions.GridIsJoin | src/app/actions.ts:34-41 | the grid is its lines joined by newlines |
| Actions.JsonRoundTrip | src/app/actions.ts:47 | `JSON.stringify` of a string reads back as the string |
| Actions.JsonOfPlain | src/app/actions.ts:47 | a string without quotes, backslashes or control characters is only put in quotes |
| Actions.ReplyKinds | src/app/actions.ts:43-52 | a reply starts with `E` exactly for a rejected `execute` and with `Q` exactly for a resolved one |
| Actions.TimeoutIsNotSqlError | src/app/actions.ts:46-52 | the timeout reply differs from every SQL-error reply |
| Actions.ToolReplies | src/app/actions.ts:25-52 | for a present query: refusal and SQL error give the JSON reply, the timeout the error reply, no rows the empty reply, rows the grid reply |
| Actions.MissingSql | src/app/actions.ts:25-54 | a missing or empty query gives the fixed request, whatever `execute` would do |
| Actions.WithSystemMessage | src/app/actions.ts:106-130 | the system prompt goes in front exactly when no message of the transcript is a system message; otherwise the transcript is unchanged |
| Actions.WithSystemMessageIdempotent | src/app/actions.ts:106-130 | preparing a prepared transcript changes nothing |
| Page.BuildRow | src/app/page_backup.tsx:110-113 | the row object of one line, with distinct keys; see Page.BuildRowKeys and Page.BuildRowDistinct |
| Page.Cells | src/app/page_backup.tsx:105-108 | the trimmed, non-empty cells of a line; see RoundTrip.CellsOfFramed and RoundTrip.CellsOfCleanFramed |
| Page.TableLines | src/app/page_backup.tsx:100-101 | the lines that hold a bar; see RoundTrip.SuccessTableLines |
| Page.HasTableData | src/app/page_backup.tsx:150 | the table test; see RoundTrip.SuccessHasTableData and the three lemmas that show a reply lacks table data |
| Page.Assign | src/app/page_backup.tsx:112 | `row[key] = value`: an existing key keeps its place and takes the value, a new key goes last, keys stay distinct |
| Page.AssignKeys | src/app/page_backup.tsx:112 | after the assignment the keys are the old keys and the assigned one |
| Page.BuildRowKeys | src/app/page_backup.tsx:110-113 | the row object's keys are exactly the headers, repeated or not |
| Page.BuildRowDistinct | src/app/page_backup.tsx:110-113 | with distinct headers the row has one property per header in order, with the value at its position or '' |
| Page.ParseTableData | src/app/page_backup.tsx:98-116 | fewer than two lines holding a bar give no rows; otherwise one row per such line after the second, built from the headers of the first |
| Page.ParsedRowKeys | src/app/page_backup.tsx:105-113 | every parsed row has distinct keys, exactly the headers |
| Page.PrependCapped | src/app/page_backup.tsx:71-85 | `[x, ...xs].slice(0, cap)`: length min(cap, n+1), head x, rest a prefix of xs |
| Page.LoggedIsLatest | src/app/page_backup.tsx:71-85 | a capped log holds the latest entries newest first, then the older log, cut at the cap |
| Page.Send | src/app/page_backup.tsx:55-96 | blank input changes nothing; a non-empty reply logs the input (cap 20) and a stat with the parsed row count (cap 50) and counts the query; an empty reply or a throw logs nothing; the logs stay within their caps |
| RoundTrip.CellsOfFramed | src/app/page_backup.tsx:108 | when no cell holds a bar and every cell is trimmed, the cells read from a grid line are its non-empty cells in order, so an empty cell shifts the later values left |
| RoundTrip.CellsOfCleanFramed | src/app/page_backup.tsx:105-108 | cells that are non-empty, bar-free and trimmed are read back unchanged |
| RoundTrip.SuccessTableLines | src/app/page_backup.tsx:100-101 | when the query holds neither a bar nor a newline, and every key and rendered cell is non-empty, trimmed and free of bars and newlines, exactly the grid lines of a success message hold a bar |
| RoundTrip.ParsedDataLine | src/app/page_backup.tsx:108-113 | when every key and rendered cell is non-empty, trimmed and free of bars and newlines, a data line parses back to its keys with the rendered values |
| RoundTrip.ParseGrid | src/app/page_backup.tsx:98-116 | any text whose bar-holding lines are exactly the grid of readable rows parses back to those rows, as strings |
| RoundTrip.ParseSuccessText | src/app/page_backup.tsx:98-116 | parsing a success message gives back one row per result row, the first row's keys with the rendered values, when the query and the cells are clean |
| RoundTrip.SuccessCounted | src/app/page_backup.tsx:80 | when the query holds neither a bar nor a newline, and every key and rendered cell is non-empty, trimmed and free of bars and newlines, the logged `resultCount` of a success message is the number of result rows |
| RoundTrip.BarInQueryCountsOneMore | src/app/page_backup.tsx:98-106 | for readable rows and a newline-free query holding a bar (SQL's double-bar concatenation, say), the query line becomes the first table line, so the parse yields n + 1 rows |
| RoundTrip.BarInQueryMiscounted | src/app/page_backup.tsx:80 | for readable rows and a newline-free query holding a bar, the logged `resultCount` of a success message is one more than the number of result rows |
| RoundTrip.SuccessHasTableData | src/app/page_backup.tsx:150 | a success message with at least one column is shown as a table |
| RoundTrip.NoResultsLacksTableData | src/app/page_backup.tsx:150 | the no-results message is not shown as a table when the query has no bar |
| RoundTrip.ErrorLacksTableData | src/app/page_backup.tsx:150 | the error reply is not shown as a table when the error message has no bar |
| RoundTrip.ResultLacksTableData | src/app/page_backup.tsx:150 | the JSON reply of a plain bar-free value is not shown as a table |
| Performance.Compare | src/components/QueryPerformance.tsx:21-30 | the three comparators; see Performance.CompareIsRankDifference |
| Performance.Sorted | src/components/QueryPerformance.tsx:21-30 | the sorted copy; see Performance.SortedIsPermutation, Performance.SortedIsOrdered and Performance.SortedIsStable |
| Performance.CompareIsRankDifference | src/components/QueryPerformance.tsx:21-30 | each comparator is a difference of ranks, so it orders consistently |
| Performance.SortedIsPermutation | src/components/QueryPerformance.tsx:21 | the sorted copy holds exactly the stats, each as often |
| Performance.SortedIsOrdered | src/components/QueryPerformance.tsx:21-30 | the sorted copy is ordered by rank |
| Performance.BySpeedAscending | src/components/QueryPerformance.tsx:23-24 | `'speed'` gives non-decreasing execution times |
| Performance.ByResultsDescending | src/components/QueryPerformance.tsx:25-26 | `'results'` gives non-increasing result counts |
| Performance.ByTimeDescending | src/components/QueryPerformance.tsx:27-28 | `'time'` gives non-increasing timestamps |
| Performance.SortedIsStable | src/components/QueryPerformance.tsx:21 | entries that tie keep their relative order |
| Performance.Reduce | src/components/QueryPerformance.tsx:37-40 | the strict-`<` reduce; see Performance.ReduceIsFirstMinimum |
| Performance.Fastest | src/components/QueryPerformance.tsx:37-40 | `fastestQuery`, none for an empty list; see Performance.FastestIsFirstMinimum |
| Performance.ReduceIsFirstMinimum | src/components/QueryPerformance.tsx:37-40 | the strict-`<` reduce returns its start value or the first strictly faster entry of least time |
| Performance.FastestIsFirstMinimum | src/components/QueryPerformance.tsx:37-40 | the fastest query is an entry of least time, the first such in the list |
| Performance.FastestTime | src/components/QueryPerformance.tsx:37-40 | an empty list shows fastest time 0 |
| Performance.TotalQueries | src/components/QueryPerformance.tsx:36 | `totalQueries`; see Performance.TotalIsTableRows |
| Performance.TotalIsTableRows | src/components/QueryPerformance.tsx:21-36 | the total shown equals the number of rows of the sorted table, under each of the three orders |
| Performance.AverageTime | src/components/QueryPerformance.tsx:32-34 | the average of an empty list is 0 |
| Performance.FastestNotAboveAverage | src/components/QueryPerformance.tsx:32-40 | the fastest time is never above the average |
| Performance.BandOf | src/components/QueryPerformance.tsx:137-141 | green exactly below 1000, yellow exactly from 1000 below 3000, red exactly from 3000 |
| Performance.BandMonotone | src/components/QueryPerformance.tsx:137-141 | a slower entry never gets a milder colour |

## Left out

- RoundTrip.SuccessCounted, RoundTrip.BarInQueryMiscounted, RoundTrip.SuccessHasTableData:
  these lemmas take the agent's last message to be the tool's reply word for word. The
  language model's relay of that reply (src/app/actions.ts:146 returns the content of the
  agent's last message) is not modelled; a prose answer logs whatever its own text parses to.
- The SQL engine and the sqlite3 driver. `db.all` is the abstract `Engine`, which returns
  rows, an SQL error or no answer in time, together with the tables as the statement left
  them. What a statement writes is therefore not modelled, only that a refused one writes
  nothing. Table creation (`./constants` is not part of
  this model) and all logging are left out.
- `verifyDatabaseState` is driver callbacks and logging only.
- Timing and races are left out: `performance.now`, `Date.now`, and the `setTimeout` race in
  `execute`. The timeout is the `Late` answer, and elapsed and current times are inputs of
  `Page.Send`. The unawaited `seed()` on page load is left out as well.
- RoundTrip.ParseSuccessText and RoundTrip.SuccessCounted hold only for queries without a bar.
  A query holding one, such as SQL's `||` concatenation, puts its `SQL Query:` line among the
  table lines. The page then takes that line as the header and logs `resultCount` as n + 1
  (RoundTrip.BarInQueryCountsOneMore, RoundTrip.BarInQueryMiscounted).
- Strings are sequences of Unicode scalar values, not UTF-16 code units, so a lone surrogate
  cannot occur. `JSON.stringify` would write one as a `\udxxx` escape; `Actions.Escape` never
  meets one, and `Actions.Unescape` reads back only what `Actions.Escape` writes.
- The synchronous `catch` of `execute`, which rejects with an exception of the driver
  call, is left out. The driver is a total function here.
- The language-model agent, LangChain message conversion, the prompt texts and the apology
  `catch` of `message` are foreign calls. Only the system-message step is modelled.
- Floating point is left out:
  - `Performance.AverageTime` is exact division of reals, and `toFixed` formatting is left out;
  - REAL `shippingcost` values are kept as `real`;
  - the rendering of floating-point cells is left out, and cells are null, integers or text.
- Integers are unbounded; JavaScript numbers beyond 2^53 are not modelled.
- Object property order follows assignment. The special order of integer-like keys and
  `__proto__` keys is left out (`Page.Assign`, `Actions.Names`).
- Actions.ResultText: `JSON.stringify` is modelled for strings only, the only non-array
  values `execute` resolves to.
- UI and persistence are left out: JSX, `localStorage`, `JSON.parse`, the input box
  clearing and the loading flag. The result, history and schema components are left out too.
- The test scripts are left out; they only log.
- Page.Send: the stat's `timestamp` is an integer time and `executionTime` an integer
  number of milliseconds.
- Performance.Sorted: `sort` is modelled by its result under a stable insertion order,
  not by the engine's algorithm. ECMAScript requires a stable sort, so the result is the
  same.

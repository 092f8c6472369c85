# SQL Spender expense table, in Dafny

SQL Spender is a console expense tracker. It keeps one SQLite table,
`expenses(id INTEGER PRIMARY KEY AUTOINCREMENT, date, category, amount REAL,
description)`, and offers a six-item menu: add, view, update, delete, a
per-category summary (`GROUP BY category` with `COUNT(*)` and `SUM(amount)`),
and exit.

This project models that table and the operations the program applies to it:

- `Parse`: the two conversions of typed text. `float(...)` turns an amount
  into a number. The typed id is compared with the INTEGER `id` column.
- `Expenses`: the record, the table as a map from id to record, and the
  pure parts of the operations. These are the blank-keeps-current merge of an
  update, the lookup `WHERE id = ?`, and what a full listing is (every row
  once, in no promised order).
- `Aggregate`: the summary query. It is computed in one pass, the way a
  grouping aggregate accumulates, and proved equal to the per-category
  definition (count the rows of the category, add their amounts). It is
  proved independent of scan order, and its counts and totals add up.
- `Store`: the class `ExpenseStore`. It holds the rows and the AUTOINCREMENT
  counter. Add, list, update, delete and summary are its methods. Each
  method states the whole new state and keeps the invariant that every id
  is below the counter, so ids are never reused.
- `Menu`: the dispatch loop as a state machine: Running, then Terminated on
  "6" or Crashed on an uncaught exception. `Step` is one round of the menu.
  `Session` is the `while True` loop over the user's choices.

The amount is a `real`, so sums are exact. An uncaught `ValueError` from
`float` ends the real program. The model reports it as an `Aborted` reply,
sets the shell to `Crashed`, and leaves the table unchanged. The conversion
happens before the INSERT or UPDATE runs.

Three facts about the code shape the model:

- On update, a blank amount answer keeps `record[3]`, the stored float
  (expense_tracker.py:107), and `float` of a float cannot fail
  (expense_tracker.py:115). `Merge` therefore never re-parses a kept amount.
- `SELECT * FROM expenses` has no `ORDER BY` (expense_tracker.py:65), so the
  model promises only a permutation of the table.
- A bad amount raises a `ValueError` that nothing catches
  (expense_tracker.py:44 and :115), so it ends the process.

## Model

| member | source | states |
|---|---|---|
| `Parse.ParseAmount` | expense_tracker.py:44 | the modelled conversion of a typed amount succeeds only on text that contains a digit; a blank answer fails here and is a ValueError in the program (inf and nan: see the `Parse.ParseAmount` line under "## Left out") |
| `Parse.AmountSpacing` | expense_tracker.py:44 | `float` ignores ASCII tab and space and non-ASCII spaces such as U+00A0 and U+3000 around an amount, but not the ASCII separator U+001C, which makes the text no number |
| `Parse.CentsTextRoundTrip` | expense_tracker.py:79 | a whole-cent amount typed back as the listing prints it (two decimals, optional minus) converts to that amount |
| `Parse.IntTextRoundTrip` | expense_tracker.py:96 | the decimal text of an id, as the listing shows it, parses back to that id |
| `Expenses.Merge` | expense_tracker.py:104-115 | each field takes the non-blank answer or keeps its stored value; the merge fails exactly when a non-blank amount is not a number; a kept amount is never re-parsed; an all-blank update leaves the record identical |
| `Expenses.FindById` | expense_tracker.py:96-100 | the lookup finds a row exactly when the id text denotes an id present in the table, and returns that row |
| `Expenses.FindListedId` | expense_tracker.py:92-97 | typing the id that the listing shows finds that very row |
| `Expenses.ListingSize` | expense_tracker.py:65-71 | a listing has exactly as many rows as the table and is empty exactly when the table is ("No expenses recorded yet.") |
| `Expenses.ListingsArePermutations` | expense_tracker.py:65-66 | two results of `SELECT *` on the same table differ at most in row order |
| `Aggregate.Summarize` | expense_tracker.py:153-158 | the grouped result has one group per category occurring in the scanned rows and is empty exactly when no row was scanned ("No data available for summary.") |
| `Aggregate.SummarizeIsGroupBy` | expense_tracker.py:154-156 | each group's count is the number of rows of its category and its total the sum of their amounts; a category has a group iff some row has it |
| `Aggregate.SummaryAddsUp` | expense_tracker.py:154-156 | the counts of all groups add up to the number of rows and the totals to the sum of all amounts |
| `Aggregate.TotalPermutation` | expense_tracker.py:154 | `SUM(amount)` does not depend on the order of the rows |
| `Aggregate.SummaryOrderIrrelevant` | expense_tracker.py:153-157 | without `ORDER BY` the scan order is free, and the summary is the same for every order |
| `Aggregate.CountIsCategorySize` | expense_tracker.py:154-156 | on a listing of the table, a category's count is the number of table rows with that category, and it has a group iff there is one |
| `Aggregate.SummaryExample` | expense_tracker.py:153-157 | two Food rows (10 and 5) and one Fuel row (20) give Food: 2 rows, 15; Fuel: 1 row, 20 |
| `Store.ExpenseStore.constructor` | expense_tracker.py:15-30 | a new database has no rows and will hand out id 1 first |
| `Store.ExpenseStore.Add` | expense_tracker.py:37-55 | a non-numeric amount fails before any write; otherwise the table gains exactly one row with the given fields, under an id larger than every id ever assigned, and looking it up by that id returns those fields; SQLITE_FULL once the largest rowid has been used |
| `Store.ExpenseStore.ListAll` | expense_tracker.py:62-71 | `SELECT *` returns every row of the table exactly once, and nothing when the table is empty |
| `Store.ExpenseStore.Update` | expense_tracker.py:87-118 | an id text that finds no row reports not-found and changes nothing; otherwise only that row changes, to the merge of it with the answers, its id and all other rows stay, and a bad non-blank amount changes nothing |
| `Store.ExpenseStore.Delete` | expense_tracker.py:125-141 | reports success iff a row with that id existed; removes exactly that row; a missing id leaves the table unchanged; the id counter is kept |
| `Store.ExpenseStore.Summary` | expense_tracker.py:148-162 | the table has a listing, and the summary equals the grouping of every listing of it; it has a group per category present with the count of its rows, is empty iff the table is, its counts add up to the table size and its totals to the sum of all amounts |
| `Menu.ParseChoice` | expense_tracker.py:198-217 | a choice selects the command whose menu number it equals exactly, and any other text selects none |
| `Menu.Step` | expense_tracker.py:188-217 | the round satisfies `StepSpec` and the shell goes on running unless the reply is Goodbye or a crash: an unknown choice reports an invalid selection and changes nothing; "1" adds the typed row under the next id, or crashes with NotANumber or DatabaseFull and changes nothing; "2" and "5" reply with the listing or summary of the table, or the empty-table message, and change nothing; "3" replaces the found row by its merge with the answers, reports not-found, or crashes with NotANumber; "4" reports a deletion iff the id finds a row and removes exactly that row; "6" says Goodbye and changes nothing |
| `Menu.ChoiceDecidesShell` | expense_tracker.py:198-217 | in any round allowed by `StepSpec`, the shell terminates iff the choice is "6", the reply is an invalid selection iff the choice is none of "1" to "6", and only "1" and "3" can crash |
| `Menu.StepKeepsIdsFresh` | expense_tracker.py:22-23 | every menu round keeps all ids below the AUTOINCREMENT counter, never lowers the counter, and gives a new row an id not handed out before |
| `Menu.OnlyWritesChange` | expense_tracker.py:202-217 | only a reported add, update or delete changes the table or the counter; viewing, the summary, an invalid choice, a missing id, "6" and a crash leave both unchanged |
| `Menu.Session` | expense_tracker.py:179-220 | round i takes the recorded table and counter `trace[i]` to `trace[i + 1]` with reply i, as `StepSpec` says, starting from the initial state and ending in the final one; a round replies Goodbye exactly when its choice is "6"; the loop runs until "6" or the first crash, every earlier round continued, and every row added during the run has a fresh id |
| `Menu.RunKeepsIdsFresh` | expense_tracker.py:22-23 | over any recorded run of rounds the counter never goes down, all ids stay below it, and every row present at the end but not at the start has an id the counter had not reached |
| `Menu.RunEndsOnExit` | expense_tracker.py:213-216 | in any recorded run of rounds, a round replies Goodbye exactly when its choice is "6" |

## Left out

- The SQLite connection, cursor, `commit` and `close`, and the database file. Each statement is modelled as an atomic change of the in-memory table. The constructor models a new, empty file; reopening a file that already holds rows is not modelled.
- Prompts and printed layout: the fixed-width columns, the `.2f` rendering, and the listing that the update and delete flows print before asking for the id. The listing changes nothing.
- Floating point. Amounts are exact `real` numbers. IEEE rounding in `float` and in `SUM` is not modelled.
- Parse.ParseAmount: it accepts only optional white space, one optional sign, and decimal digits with at most one point. Python's `float` also accepts exponents ("1e3"), "inf" and "nan", underscores between digits, and non-ASCII digits. The model refuses these.
- Parse.ParseInteger, Expenses.FindById, and through them Store.ExpenseStore.Update and Store.ExpenseStore.Delete: the id text is read as an optional sign and decimal digits. SQLite's numeric affinity also lets texts such as "3.0" or " 3" match id 3. The model makes those match no row.
- Menu.Session: when the list of choices runs out, the model stops in Running. The real program would raise EOFError at the next `input()`.
- Storage errors other than SQLITE_FULL, such as a locked or unwritable file, are not modelled.
- A NULL description, which only a row written by another program could have, is not modelled.
- The order of the rows in the listing and of the groups in the summary. SQL does not fix either order. The listing is specified as a permutation of the table. The summary is a map from category to group.

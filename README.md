# Temporal history table and triggers for SQLite: a Dafny model of the DDL generator

`printSQL.py` reads a SQLite table's columns and primary-key columns. It prints the SQL that gives the table
a history ("temporal") companion:

- a table `_{table}_history` with every source column plus `valid_from` / `valid_to`;
- an index on the key columns and the validity interval;
- three triggers that keep the history in step. The insert trigger opens a history row. The update trigger, when any column
  changed, closes the open row of the key and opens a new one. The delete trigger only closes the open row.

An *open* row is one whose `valid_to` is the sentinel `'9999-12-31 23:59:59.999'`.

This project models the text generator that does this work:

| module | file | models |
|---|---|---|
| `Strings` | `strings.dfy` | Python's `sep.join(...)` (`Join`) and list/generator expressions (`Map`), plus `Offset` / `At` / `EndsWith`. These say where each joined item lands in the output. |
| `SqliteEscape` | `escape.dfy` | `reserved_words` and `escape_sqlite`. |
| `HistoryTable` | `history_table.dfy` | `history_table_sql` |
| `Triggers` | `triggers.dfy` | `triggers_sql`. This includes the two `for`/`append` loops that build the change tests and the key matches. |

`escape_sqlite` and `history_table_sql` are pure, so they are modelled as functions. `triggers_sql` builds two lists
step by step. It is the method `Triggers.TriggersSql`, whose `while` loops carry the invariants that make each list
equal to `Map` of its fragment function. Its postcondition ties the result to the specification function
`Triggers.TriggersText`.

Each template is written as a concatenation of named fragments. Together the fragments spell the Python template
character for character, whitespace included. The lemmas say where each input-dependent piece lands:

- one fragment per column or key;
- in input order;
- with the separator between each two neighbours.

Positions are stated with `Strings.Offset`: the summed lengths of the earlier items and separators
(`Strings.OffsetCounts`).

Some outputs look unintended. The model follows the code as written in each of them:

- With an empty key list, the index reads `( , valid_from, valid_to )`. The close-open-row `WHERE` clause then starts
  directly with ` and valid_to = ...`. Neither is valid SQL. The code does not guard against an empty key list,
  and the model does not either (`HistoryTable.HistoryIndexWithoutKeys`, `Triggers.CloseWithoutKeys`).
- The update trigger's `WHEN` guard tests every column, key columns included, not only the non-key columns.
- Python's `$` also matches just before a final `"\n"`. So a name such as `"transaction\n"` is left bare, as the code does
  (`SqliteEscape.EscapeKeepsTrailingNewline`).

## Model

| member | source | states |
|---|---|---|
| SqliteEscape.Escape | printSQL.py:28-35 | The name comes back unchanged exactly when it matches `^[a-zA-Z_][a-zA-Z0-9_]*$` (Python's `$` allows one final newline) and its lower-case form is not a keyword. Otherwise the result is the name inside `[` `]`, two characters longer. |
| SqliteEscape.EscapeRoundTrip | printSQL.py:32-35 | Stripping the brackets a bracketed result got gives back the original name. A bare result is already the original. |
| SqliteEscape.EscapeInjective | printSQL.py:32-35 | Two different names never escape to the same text. |
| SqliteEscape.EscapeEmpty | printSQL.py:28-35 | The empty name fails the pattern and becomes `[]`. |
| SqliteEscape.EscapeIdempotentExactlyWhenBare | printSQL.py:28-35 | Escaping twice gives the same as escaping once exactly when the name is left bare. A bracketed name is bracketed again. |
| SqliteEscape.EscapeRewrapsBracketed | printSQL.py:28-35 | A bracketed result is bracketed again when escaped again, because `[` fails the pattern. |
| SqliteEscape.EscapeBracketsNonIdentifier | printSQL.py:28-35 | Any name that fails the pattern is wrapped as `[name]`. |
| SqliteEscape.EscapeIgnoresCase | printSQL.py:6-32 | The reserved check is case-insensitive. Two identifiers with the same lower-case form are either both left bare or both bracketed. |
| SqliteEscape.EscapeKeepsPlainName | printSQL.py:28-33 | A lower-case identifier that is not a keyword is returned unchanged. |
| SqliteEscape.EscapeKeepsTrailingNewline | printSQL.py:28-33 | `"transaction\n"` is returned bare: the `$` newline allowance, and the reserved check sees the newline too. |
| SqliteEscape.EscapeKeepsId | printSQL.py:28-33 | `id` is returned bare. |
| SqliteEscape.EscapeBracketsKeyword | printSQL.py:21-35 | The keyword `select` becomes `[select]`. |
| SqliteEscape.EscapeBracketsKeywordInAnyCase | printSQL.py:21-35 | `Select` becomes `[Select]`: the keyword test is on the lower-case form, and the original spelling is kept inside the brackets. |
| SqliteEscape.EscapeBracketsSpacedName | printSQL.py:28-35 | `my column` fails the pattern and becomes `[my column]`. |
| Strings.Map | printSQL.py:98-104 | A list built by appending `f(x)` for each `x` has one entry per input, and entry `i` is `f(xs[i])`. |
| Strings.Join | printSQL.py:64-68 | Python's `sep.join` on 0, 1 and more items, used for every join at printSQL.py:64, 68, 84, 85, 105 and 113. It has no contract of its own; `Strings.JoinItemAt`, `Strings.OffsetCounts` and `Strings.JoinCountsSeparators` state what it produces. |
| Strings.JoinItemAt | printSQL.py:105 | In `sep.join(xs)`, item `i` sits at `Offset(sep, xs, i)`, and a separator follows every item but the last. |
| Strings.OffsetIncreasing | printSQL.py:105 | For `i < j`, item `i` and the separator after it end no later than item `j` starts. Joined items appear in input order and never overlap. |
| Strings.OffsetCounts | printSQL.py:105 | Item `i` of a join is preceded by exactly the first `i` items and `i` separators. |
| Strings.JoinCountsSeparators | printSQL.py:105 | A join of `n > 0` items is as long as the items plus `n - 1` separators. |
| HistoryTable.HistoryTableSql | printSQL.py:62-78 | `history_table_sql`: the template filled in with the joined column lines and the joined escaped keys. It has no contract of its own; the `HistoryTable` lemmas below state its layout. |
| HistoryTable.HistoryTemplateLayout | printSQL.py:69-78 | The DDL is, in this order: `CREATE TABLE _{table}_history (`, the column block, the `valid_from`/`valid_to` columns, `CREATE INDEX idx_{table}_history_keys ON _{table}_history ( `, the key list, and finally `, valid_from, valid_to );`. The table name is inserted as given. |
| HistoryTable.HistoryTableListsEveryColumn | printSQL.py:64-67 | For every input column `i`, the line `"    " + escape(name) + " " + type` appears inside the column block at item position `i`. With `Strings.OffsetIncreasing`, the lines follow input order. |
| HistoryTable.HistoryTableSeparatesColumns | printSQL.py:64-67 | Each two neighbouring column lines are separated by `",\n"`. |
| HistoryTable.ColumnLinesLength | printSQL.py:64-67 | The column block is exactly its lines plus `n - 1` `",\n"` separators. |
| HistoryTable.ColumnLineLayout | printSQL.py:65 | A column line holds the escaped name at offset 4 and ends with a space and the type text, verbatim (the type is never escaped). |
| HistoryTable.HistoryIndexListsEveryKey | printSQL.py:68-75 | For every key `i`, the escaped key name appears in the index column list at item position `i`. With `Strings.OffsetIncreasing`, the keys follow key order. |
| HistoryTable.HistoryIndexSeparatesKeys | printSQL.py:68-75 | Neighbouring index keys are separated by `", "`. |
| HistoryTable.KeyListLength | printSQL.py:68 | The index key list is exactly the escaped keys plus `n - 1` `", "` separators. |
| HistoryTable.HistoryIndexWithoutKeys | printSQL.py:68-77 | With an empty key list, the whole DDL ends in `( , valid_from, valid_to );` followed by a newline. |
| Triggers.TriggersSql | printSQL.py:82-150 | The loops build the change tests and key matches, one per column or key and in order. The result is exactly `Triggers.TriggersText`: insert, update and delete trigger, concatenated. |
| Triggers.ColumnNamesLength | printSQL.py:84 | The column list is exactly the escaped names plus `n - 1` `", "` separators. |
| Triggers.NewValuesLength | printSQL.py:85 | The value list is exactly the `new.` values plus `n - 1` `", "` separators. |
| Triggers.ColumnNamesInOrder | printSQL.py:84 | The column list holds the escaped name of column `i` at item position `i`. |
| Triggers.NewValuesInOrder | printSQL.py:85 | The value list holds `new.` plus the escaped name of column `i` at item position `i`. |
| Triggers.InsertTriggerNamed | printSQL.py:86-88 | The insert trigger starts, after its leading newline, with `CREATE TRIGGER {table}_insert_history`, table name as given. |
| Triggers.UpdateTriggerNamed | printSQL.py:114-116 | The update trigger is named `{table}_update_history`. |
| Triggers.DeleteTriggerNamed | printSQL.py:135-137 | The delete trigger is named `{table}_delete_history`. |
| Triggers.TriggersInOrder | printSQL.py:150 | The output is the insert trigger at 0, the update trigger right after it, and the delete trigger right after that, ending the output. |
| Triggers.InsertTriggerInsertsRow | printSQL.py:86-92 | The insert trigger is exactly its head at 0, then one INSERT into `_{table}_history` of the column list and the `new.` value list, then `END;`. The length is the sum of the three, so nothing else is there. |
| Triggers.InsertRowLayout | printSQL.py:90-91 | Each INSERT (insert trigger and update trigger alike) names the given columns followed by `valid_from, valid_to`. It ends with the given values followed by the `STRFTIME(...)` timestamp and the sentinel. |
| Triggers.UpdateTriggerParts | printSQL.py:114-127 | The update trigger is exactly its head with the `WHEN` guard at 0, then the close-open-row UPDATE, then the re-INSERT right after it. Its length is the sum of the three, so nothing else is there. The statement closing the open row comes before the statement inserting the new one. |
| Triggers.UpdateReopensRow | printSQL.py:125-127 | The update trigger ends with an INSERT of the same column list and the same `new.` values as the insert trigger. |
| Triggers.UpdateClosesOpenRow | printSQL.py:114-124 | After its head and `WHEN` guard, the update trigger's body starts with the close-open-row UPDATE. |
| Triggers.DeleteOnlyCloses | printSQL.py:135-145 | The delete trigger is exactly its head at 0, then the same close-open-row UPDATE, then `END;`. The length is the sum of the three, so there is no INSERT. |
| Triggers.CloseOpenRowLayout | printSQL.py:119-124 | The close-open-row UPDATE contains the key condition right after its `WHERE` and ends with the key condition followed by ` and valid_to = '9999-12-31 23:59:59.999';`. |
| Triggers.CloseWithoutKeys | printSQL.py:106-124 | With no key columns, the key condition is empty. The close statement then ends with its fixed `WHERE` text (comment and indent) followed directly by ` and valid_to = '9999-12-31 23:59:59.999';`. That is, a newline and indentation come just before ` and valid_to`. |
| Triggers.GuardTestsEveryColumn | printSQL.py:98-117 | For every column `i`, key columns included, `old.c is not new.c` with `c` escaped appears in the `WHEN` guard at item position `i`. With `Strings.OffsetIncreasing`, the tests follow column order. |
| Triggers.GuardSeparatesTests | printSQL.py:105-117 | Neighbouring change tests in the guard are separated by ` or `. |
| Triggers.GuardLength | printSQL.py:98-105 | The guard is exactly its tests plus `n - 1` ` or ` separators. |
| Triggers.GuardOfTwoColumns | printSQL.py:98-105 | For two bare names `a`, `b` the guard is `old.a is not new.a or old.b is not new.b`. |
| Triggers.CloseMatchesEveryKey | printSQL.py:106-124 | For every key `i`, `c is old.c` with `c` escaped appears in the close-open-row UPDATE at item position `i`. With `Strings.OffsetIncreasing`, the matches follow key order. |
| Triggers.CloseSeparatesKeys | printSQL.py:113-124 | Neighbouring key matches are separated by ` and `. |
| Triggers.KeyConditionLength | printSQL.py:106-113 | The key condition is exactly its matches plus `n - 1` ` and ` separators. |
| Triggers.OutputTestsEveryColumn | printSQL.py:98-150 | In the whole output, as `Triggers.TriggersSql` returns it, every column's change test sits inside the update trigger's guard. The position is the insert trigger's length, plus the guard prefix, plus the test's join position. |
| Triggers.OutputUpdateMatchesEveryKey | printSQL.py:106-150 | In the whole output, every key's match sits inside the update trigger's close-open-row UPDATE, at its join position. |
| Triggers.OutputDeleteMatchesEveryKey | printSQL.py:106-150 | In the whole output, every key's match sits again inside the delete trigger's close-open-row UPDATE, at its join position. |

## Left out

- `table_columns_and_types` and `table_key_columns` (printSQL.py:39-58) are sqlite3 cursor queries. They are not modelled;
  the model takes the column pairs and the key names as input sequences.
- The `pk = 1` filter (printSQL.py:54) is part of those queries. In `pragma_table_info`, `pk` is a column's 1-based position
  in the primary key, so the filter returns only the first column of a composite key. The program therefore passes at
  most one key to the generator. The model accepts any key list, so its lemmas about several keys and their ` and ` /
  `", "` separators describe inputs that the program's `__main__` never supplies.
- The `__main__` block (printSQL.py:153-169) is argument parsing, the database connection and `print`. Its projection of
  names out of `(name, type)` pairs is taken as already done.
- What the generated SQL does when SQLite runs it is not modelled: the value of `STRFTIME(...)` and the validity-interval
  discipline the triggers maintain. The source only produces text, so the model states facts about that text.
- `str.lower` is modelled on ASCII letters only. Only names that already passed the ASCII-only pattern reach the keyword
  test. Every other character lower-cases to itself in the model.
- `reserved_words` is modelled as a membership predicate over the same keywords, not as a `set` value.
- Python's `str(i)` on a key name (printSQL.py:68) is the identity on strings. Keys are modelled as strings.
- Triggers.DeleteOnlyCloses: "contains no INSERT" is stated structurally. The delete trigger is exactly head, close
  statement and end, by position and total length. No search for the text `INSERT` is stated.
- Positions inside the output are stated through `Strings.Offset`, not as literal numbers.
- Triggers.OutputTestsEveryColumn, Triggers.OutputUpdateMatchesEveryKey, Triggers.OutputDeleteMatchesEveryKey: stated for
  `TriggersTemplate` with only the fill-in they are about given as a function of the columns or keys. The other fill-ins
  are left free. `TriggersText`, and so `TriggersSql`'s result, is that template with every fill-in given, so the lemmas
  apply to it.

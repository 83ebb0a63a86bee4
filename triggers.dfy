/** `triggers_sql`: the three triggers that keep the history table in step with
    the source table.  The insert trigger opens a history row; the update
    trigger, when some column changed, closes the open row of the updated key and
    opens a new one; the delete trigger only closes the open row.  An open row is
    one whose `valid_to` is the sentinel `'9999-12-31 23:59:59.999'`.  The table
    name is inserted as given; column names are escaped. */
module Triggers {
  import opened Strings
  import opened SqliteEscape

  /** The SQL expression every trigger uses for "now". */
  const Now: string := "STRFTIME('%Y-%m-%d %H:%M:%f', 'NOW')"

  /** The `valid_to` of a row that is still current. */
  const OpenSentinel: string := "'9999-12-31 23:59:59.999'"

  /** `"new." + escape_sqlite(column)` */
  function NewValue(column: string): string
  {
    "new." + Escape(column)
  }

  /** `old.{c} is not new.{c}`: the column's value changed. */
  function ChangeTest(column: string): string
  {
    var c := Escape(column);
    "old." + c + " is not new." + c
  }

  /** `{c} is old.{c}`: the history row belongs to the updated or deleted key. */
  function KeyMatch(column: string): string
  {
    var c := Escape(column);
    c + " is old." + c
  }

  /** `column_names_str`: the escaped column names joined by `", "`. */
  function ColumnNames(columns: seq<string>): string
  {
    Join(", ", Map(Escape, columns))
  }

  /** `new_column_values_str`: the `new.` values joined by `", "`. */
  function NewValues(columns: seq<string>): string
  {
    Join(", ", Map(NewValue, columns))
  }

  /** What separates two change tests. */
  const OrSep: string := " or "

  /** What separates two key matches. */
  const AndSep: string := " and "

  /** `update_columns_sql`: one change test per column joined by `" or "`. */
  function ChangeGuard(columns: seq<string>): string
  {
    Join(OrSep, Map(ChangeTest, columns))
  }

  /** `keyColumn_where_sql`: one key match per key column joined by `" and "`. */
  function KeyCondition(keys: seq<string>): string
  {
    Join(AndSep, Map(KeyMatch, keys))
  }

  /** `CREATE TRIGGER {table}_{action}_history` */
  function TriggerName(table: string, action: string): string
  {
    "CREATE TRIGGER " + table + "_" + action + "_history"
  }

  /** The history table's column list followed by the `VALUES` keyword. */
  function RowColumns(columnNames: string): string
  {
    columnNames + ", valid_from, valid_to)\n    VALUES"
  }

  /** The values of a new open row: the `new.` values, now, and the sentinel. */
  function RowValues(newValues: string): string
  {
    newValues + ", " + Now + ", " + OpenSentinel + ");"
  }

  /** The `INSERT` of a new open row.  The insert and the update trigger spell
      it with different spacing after the parentheses: `open1` and `open2`. */
  function InsertRow(table: string, open1: string, columnNames: string, open2: string, newValues: string): string
  {
    "INSERT INTO _" + table + "_history " + open1 + RowColumns(columnNames) + open2 + RowValues(newValues)
  }

  /** The `UPDATE` that closes the open row, up to its `WHERE`. */
  function CloseSet(table: string): string
  {
    "UPDATE _" + table + "_history\n        SET valid_to = " + Now
  }

  /** The `WHERE` keyword and comment before the key condition. */
  const CloseWhere: string := "\n        WHERE\n                /* add Key colum where and */\n        "

  /** The `UPDATE` that closes the open row, up to the key condition. */
  function CloseHead(table: string): string
  {
    CloseSet(table) + CloseWhere
  }

  /** What follows the key condition: only rows that are still open are closed. */
  const OpenRowTest: string := " and\n                valid_to = " + OpenSentinel + ";"

  /** The `UPDATE` that sets `valid_to` to now on the open rows matching the key
      condition; the update and the delete trigger contain it word for word. */
  function CloseOpenRow(table: string, keyCondition: string): string
  {
    CloseHead(table) + keyCondition + OpenRowTest
  }

  const TriggerEnd: string := "\nEND;\n"

  function InsertHead(table: string): string
  {
    "\n" + TriggerName(table, "insert") + "\nAFTER INSERT ON " + table + "\nBEGIN\n    "
  }

  /** `insert_trigger`, its placeholders filled in. */
  function InsertTrigger(table: string, columnNames: string, newValues: string): string
  {
    InsertHead(table) + InsertRow(table, "(", columnNames, " (", newValues) + TriggerEnd
  }

  /** The update trigger's text before its `WHEN` guard. */
  function GuardPrefix(table: string): string
  {
    "\n" + TriggerName(table, "update") + "\nAFTER UPDATE ON " + table + "\nWHEN ( "
  }

  /** The update trigger's text between its guard and its statements. */
  const GuardSuffix: string := " )\nBEGIN\n        "

  function UpdateHead(table: string, guard: string): string
  {
    GuardPrefix(table) + guard + GuardSuffix
  }

  /** The update trigger's second statement: the new open row. */
  function Reinsert(table: string, columnNames: string, newValues: string): string
  {
    "\n    " + InsertRow(table, "( ", columnNames, "( ", newValues) + TriggerEnd
  }

  /** The update trigger's statements: close the open row, then insert a new one. */
  function UpdateBody(table: string, columnNames: string, keyCondition: string, newValues: string): string
  {
    CloseOpenRow(table, keyCondition) + Reinsert(table, columnNames, newValues)
  }

  /** `update_trigger`, its placeholders filled in. */
  function UpdateTrigger(table: string, columnNames: string, guard: string, keyCondition: string, newValues: string): string
  {
    UpdateHead(table, guard) + UpdateBody(table, columnNames, keyCondition, newValues)
  }

  function DeleteHead(table: string): string
  {
    "\n" + TriggerName(table, "delete") + "\nAFTER DELETE ON " + table + "\nBEGIN\n    "
  }

  /** `delete_trigger`, its placeholders filled in. */
  function DeleteTrigger(table: string, keyCondition: string): string
  {
    DeleteHead(table) + CloseOpenRow(table, keyCondition) + TriggerEnd
  }

  /** The three triggers, their placeholders filled in with the given values. */
  function TriggersTemplate(table: string, columnNames: string, guard: string, keyCondition: string, newValues: string): string
  {
    InsertTrigger(table, columnNames, newValues)
      + UpdateTrigger(table, columnNames, guard, keyCondition, newValues)
      + DeleteTrigger(table, keyCondition)
  }

  /** What `triggers_sql(table, columns, key_columns)` returns. */
  function TriggersText(table: string, columns: seq<string>, keys: seq<string>): string
  {
    TriggersTemplate(table, ColumnNames(columns), ChangeGuard(columns), KeyCondition(keys), NewValues(columns))
  }

  /** `triggers_sql(table, columns, key_columns)`: the two lists of tests are
      built by appending in a loop, then joined. */
  method TriggersSql(table: string, columns: seq<string>, keys: seq<string>) returns (sql: string)
    ensures sql == TriggersText(table, columns, keys)
  {
    var columnNames := ColumnNames(columns);
    var newValues := NewValues(columns);
    var insertTrigger := InsertTrigger(table, columnNames, newValues);

    var updateColumns: seq<string> := [];
    var i := 0;
    while i < |columns|
      invariant 0 <= i <= |columns|
      invariant |updateColumns| == i
      invariant forall j :: 0 <= j < i ==> updateColumns[j] == ChangeTest(columns[j])
    {
      var column := Escape(columns[i]);
      updateColumns := updateColumns + ["old." + column + " is not new." + column];
      i := i + 1;
    }
    assert updateColumns == Map(ChangeTest, columns);
    var updateColumnsSql := Join(" or ", updateColumns);

    var keyColumnWhere: seq<string> := [];
    var k := 0;
    while k < |keys|
      invariant 0 <= k <= |keys|
      invariant |keyColumnWhere| == k
      invariant forall j :: 0 <= j < k ==> keyColumnWhere[j] == KeyMatch(keys[j])
    {
      var column := Escape(keys[k]);
      keyColumnWhere := keyColumnWhere + [column + " is old." + column];
      k := k + 1;
    }
    assert keyColumnWhere == Map(KeyMatch, keys);
    var keyColumnWhereSql := Join(" and ", keyColumnWhere);

    var updateTrigger := UpdateTrigger(table, columnNames, updateColumnsSql, keyColumnWhereSql, newValues);
    var deleteTrigger := DeleteTrigger(table, keyColumnWhereSql);
    sql := insertTrigger + updateTrigger + deleteTrigger;
  }

  // ----- Column and value lists, in column order -----

  /** The `i`-th escaped column name sits where the join puts item `i`. */
  lemma ColumnNamesInOrder(columns: seq<string>, i: nat)
    requires i < |columns|
    ensures At(ColumnNames(columns), Escape(columns[i]), Offset(", ", Map(Escape, columns), i))
  {
    JoinItemAt(", ", Map(Escape, columns), i);
  }

  /** The `i`-th value is `new.` and the `i`-th escaped column name. */
  lemma NewValuesInOrder(columns: seq<string>, i: nat)
    requires i < |columns|
    ensures At(NewValues(columns), "new." + Escape(columns[i]), Offset(", ", Map(NewValue, columns), i))
  {
    JoinItemAt(", ", Map(NewValue, columns), i);
  }

  // ----- The triggers, in order, each named after the table as given -----

  lemma InsertTriggerNamed(table: string, columnNames: string, newValues: string)
    ensures At(InsertTrigger(table, columnNames, newValues), TriggerName(table, "insert"), 1)
  {
    var n := TriggerName(table, "insert");
    AtSelf(n);
    AtRight("\n", n, n, 0);
    AtExtend3("\n" + n, "\nAFTER INSERT ON ", table, "\nBEGIN\n    ", n, 1);
    AtLeft(InsertHead(table), InsertRow(table, "(", columnNames, " (", newValues), n, 1);
    AtLeft(InsertHead(table) + InsertRow(table, "(", columnNames, " (", newValues), TriggerEnd, n, 1);
  }

  lemma UpdateTriggerNamed(table: string, columnNames: string, guard: string, keyCondition: string, newValues: string)
    ensures At(UpdateTrigger(table, columnNames, guard, keyCondition, newValues), TriggerName(table, "update"), 1)
  {
    var n := TriggerName(table, "update");
    AtSelf(n);
    AtRight("\n", n, n, 0);
    AtExtend3("\n" + n, "\nAFTER UPDATE ON ", table, "\nWHEN ( ", n, 1);
    AtLeft(GuardPrefix(table), guard, n, 1);
    AtLeft(GuardPrefix(table) + guard, GuardSuffix, n, 1);
    AtLeft(UpdateHead(table, guard), UpdateBody(table, columnNames, keyCondition, newValues), n, 1);
  }

  lemma DeleteTriggerNamed(table: string, keyCondition: string)
    ensures At(DeleteTrigger(table, keyCondition), TriggerName(table, "delete"), 1)
  {
    var n := TriggerName(table, "delete");
    AtSelf(n);
    AtRight("\n", n, n, 0);
    AtExtend3("\n" + n, "\nAFTER DELETE ON ", table, "\nBEGIN\n    ", n, 1);
    AtLeft(DeleteHead(table), CloseOpenRow(table, keyCondition), n, 1);
    AtLeft(DeleteHead(table) + CloseOpenRow(table, keyCondition), TriggerEnd, n, 1);
  }

  /** The output is the insert trigger, then the update trigger, then the
      delete trigger, whatever the filled-in values are. */
  lemma TriggersInOrder(table: string, columnNames: string, guard: string, keyCondition: string, newValues: string)
    ensures At(TriggersTemplate(table, columnNames, guard, keyCondition, newValues),
               InsertTrigger(table, columnNames, newValues), 0)
    ensures At(TriggersTemplate(table, columnNames, guard, keyCondition, newValues),
               UpdateTrigger(table, columnNames, guard, keyCondition, newValues),
               |InsertTrigger(table, columnNames, newValues)|)
    ensures At(TriggersTemplate(table, columnNames, guard, keyCondition, newValues),
               DeleteTrigger(table, keyCondition),
               |InsertTrigger(table, columnNames, newValues)| + |UpdateTrigger(table, columnNames, guard, keyCondition, newValues)|)
    ensures EndsWith(TriggersTemplate(table, columnNames, guard, keyCondition, newValues),
                     DeleteTrigger(table, keyCondition))
  {
    PartsInOrder(InsertTrigger(table, columnNames, newValues),
                 UpdateTrigger(table, columnNames, guard, keyCondition, newValues),
                 DeleteTrigger(table, keyCondition));
  }

  // ----- Closing the open row: shared by the update and the delete trigger -----

  /** The update trigger first closes the open row of the updated key ... */
  lemma UpdateClosesOpenRow(table: string, columnNames: string, guard: string, keyCondition: string, newValues: string)
    ensures At(UpdateTrigger(table, columnNames, guard, keyCondition, newValues),
               CloseOpenRow(table, keyCondition), |UpdateHead(table, guard)|)
  {
    var c := CloseOpenRow(table, keyCondition);
    AtSelf(c);
    AtLeft(c, Reinsert(table, columnNames, newValues), c, 0);
    AtRight(UpdateHead(table, guard), UpdateBody(table, columnNames, keyCondition, newValues), c, 0);
  }

  /** ... and ends by inserting the new open row: the update trigger's last
      statement is the `INSERT` of `Reinsert`. */
  lemma UpdateReopensRow(table: string, columnNames: string, guard: string, keyCondition: string, newValues: string)
    ensures EndsWith(UpdateTrigger(table, columnNames, guard, keyCondition, newValues), Reinsert(table, columnNames, newValues))
  {
    var body := UpdateBody(table, columnNames, keyCondition, newValues);
    EndsWithLast(CloseOpenRow(table, keyCondition), Reinsert(table, columnNames, newValues));
    EndsWithLast(UpdateHead(table, guard), body);
    EndsWithTrans(UpdateTrigger(table, columnNames, guard, keyCondition, newValues), body, Reinsert(table, columnNames, newValues));
  }

  /** The update trigger consists of its head (with the guard), the close
      statement, and the re-insert, in that order and nothing else: the open row
      is closed before the new one is inserted. */
  lemma UpdateTriggerParts(table: string, columnNames: string, guard: string, keyCondition: string, newValues: string)
    ensures At(UpdateTrigger(table, columnNames, guard, keyCondition, newValues), UpdateHead(table, guard), 0)
    ensures At(UpdateTrigger(table, columnNames, guard, keyCondition, newValues), CloseOpenRow(table, keyCondition),
               |UpdateHead(table, guard)|)
    ensures At(UpdateTrigger(table, columnNames, guard, keyCondition, newValues), Reinsert(table, columnNames, newValues),
               |UpdateHead(table, guard)| + |CloseOpenRow(table, keyCondition)|)
    ensures |UpdateTrigger(table, columnNames, guard, keyCondition, newValues)|
         == |UpdateHead(table, guard)| + |CloseOpenRow(table, keyCondition)| + |Reinsert(table, columnNames, newValues)|
  {
    HeadThenTwoParts(UpdateHead(table, guard), CloseOpenRow(table, keyCondition), Reinsert(table, columnNames, newValues));
  }

  /** The delete trigger consists of its head, the same close statement, and
      the end of the trigger, and nothing else: it inserts nothing. */
  lemma DeleteOnlyCloses(table: string, keyCondition: string)
    ensures At(DeleteTrigger(table, keyCondition), DeleteHead(table), 0)
    ensures At(DeleteTrigger(table, keyCondition), CloseOpenRow(table, keyCondition), |DeleteHead(table)|)
    ensures EndsWith(DeleteTrigger(table, keyCondition), TriggerEnd)
    ensures |DeleteTrigger(table, keyCondition)| == |DeleteHead(table)| + |CloseOpenRow(table, keyCondition)| + |TriggerEnd|
  {
    PartsInOrder(DeleteHead(table), CloseOpenRow(table, keyCondition), TriggerEnd);
  }

  /** In the close statement the key condition is followed by the test that
      the row is still open. */
  lemma CloseOpenRowLayout(table: string, keyCondition: string)
    ensures At(CloseOpenRow(table, keyCondition), keyCondition, |CloseHead(table)|)
    ensures EndsWith(CloseOpenRow(table, keyCondition), keyCondition + OpenRowTest)
  {
    AtSelf(keyCondition);
    AtMiddle(CloseHead(table), keyCondition, OpenRowTest, keyCondition, 0);
    EndsWithLastTwo(CloseHead(table), keyCondition, OpenRowTest);
  }

  /** With no key columns the key condition is empty and the close statement's
      `WHERE` clause (its comment and indent) runs straight into ` and valid_to = ...`. */
  lemma CloseWithoutKeys(table: string)
    ensures KeyCondition([]) == ""
    ensures EndsWith(CloseOpenRow(table, KeyCondition([])), CloseWhere + OpenRowTest)
    ensures EndsWith(CloseOpenRow(table, KeyCondition([])), "\n        " + OpenRowTest)
  {
    assert KeyCondition([]) == "";
    WhereEndsWithIndent();
    EndsWithThroughEmpty(CloseSet(table), CloseWhere, OpenRowTest, "\n        ");
  }

  /** The fixed text of the `WHERE` clause ends with the newline and indentation
      that the key condition follows. */
  lemma WhereEndsWithIndent()
    ensures EndsWith(CloseWhere, "\n        ")
  {
    assert CloseWhere[|CloseWhere| - 9..] == "\n        ";
  }

  // ----- The new open row: the same in the insert and the update trigger -----

  /** The insert trigger consists of its head, one `INSERT` of the new open
      row, and the end of the trigger, and nothing else. */
  lemma InsertTriggerInsertsRow(table: string, columnNames: string, newValues: string)
    ensures At(InsertTrigger(table, columnNames, newValues), InsertHead(table), 0)
    ensures At(InsertTrigger(table, columnNames, newValues), InsertRow(table, "(", columnNames, " (", newValues),
               |InsertHead(table)|)
    ensures EndsWith(InsertTrigger(table, columnNames, newValues), TriggerEnd)
    ensures |InsertTrigger(table, columnNames, newValues)|
         == |InsertHead(table)| + |InsertRow(table, "(", columnNames, " (", newValues)| + |TriggerEnd|
  {
    PartsInOrder(InsertHead(table), InsertRow(table, "(", columnNames, " (", newValues), TriggerEnd);
  }

  /** Whatever its spacing, an inserted row lists the escaped columns, then
      `valid_from, valid_to`, and takes the `new.` values, now as `valid_from`
      and the open sentinel as `valid_to`. */
  lemma InsertRowLayout(table: string, open1: string, columnNames: string, open2: string, newValues: string)
    ensures At(InsertRow(table, open1, columnNames, open2, newValues), RowColumns(columnNames),
               |"INSERT INTO _" + table + "_history " + open1|)
    ensures EndsWith(InsertRow(table, open1, columnNames, open2, newValues), RowValues(newValues))
  {
    var pre := "INSERT INTO _" + table + "_history " + open1;
    AtSelf(RowColumns(columnNames));
    AtMiddle(pre, RowColumns(columnNames), open2, RowColumns(columnNames), 0);
    AtLeft(pre + RowColumns(columnNames) + open2, RowValues(newValues), RowColumns(columnNames), |pre|);
    var s := InsertRow(table, open1, columnNames, open2, newValues);
    assert s[|s| - |RowValues(newValues)|..] == RowValues(newValues);
  }

  // ----- The WHEN guard: one change test per column -----

  /** Every column, key columns included, has its change test in the update
      trigger's guard, at the place `Join` gives it, so in column order ... */
  lemma GuardTestsEveryColumn(table: string, columnNames: string, columns: seq<string>, keyCondition: string, newValues: string, i: nat)
    requires i < |columns|
    ensures At(UpdateTrigger(table, columnNames, ChangeGuard(columns), keyCondition, newValues),
               ChangeTest(columns[i]), |GuardPrefix(table)| + Offset(OrSep, Map(ChangeTest, columns), i))
  {
    JoinItemBetween4(GuardPrefix(table), OrSep, Map(ChangeTest, columns), GuardSuffix,
                     UpdateBody(table, columnNames, keyCondition, newValues), i);
  }

  /** ... with `" or "` after every test but the last. */
  lemma GuardSeparatesTests(table: string, columnNames: string, columns: seq<string>, keyCondition: string, newValues: string, i: nat)
    requires i + 1 < |columns|
    ensures At(UpdateTrigger(table, columnNames, ChangeGuard(columns), keyCondition, newValues),
               OrSep, |GuardPrefix(table)| + SepAfter(OrSep, Map(ChangeTest, columns), i))
  {
    JoinSepBetween4(GuardPrefix(table), OrSep, Map(ChangeTest, columns), GuardSuffix,
                    UpdateBody(table, columnNames, keyCondition, newValues), i);
  }

  /** The guard is as long as its tests plus one `" or "` between each two:
      `n` columns give `n - 1` separators. */
  lemma GuardLength(columns: seq<string>)
    requires |columns| > 0
    ensures |ChangeGuard(columns)| == TotalLength(Map(ChangeTest, columns)) + (|columns| - 1) * |OrSep|
  {
    JoinCountsSeparators(OrSep, Map(ChangeTest, columns));
  }

  /** For two columns that stay bare the guard reads
      `old.a is not new.a or old.b is not new.b`. */
  lemma GuardOfTwoColumns(a: string, b: string)
    requires StaysBare(a) && StaysBare(b)
    ensures ChangeGuard([a, b]) == "old." + a + " is not new." + a + " or old." + b + " is not new." + b
  {
    var tests := Map(ChangeTest, [a, b]);
    assert tests == [ChangeTest(a), ChangeTest(b)];
    assert tests[1..] == [ChangeTest(b)];
    assert Join(OrSep, tests[1..]) == ChangeTest(b);
    assert Escape(a) == a && Escape(b) == b;
    var ta, tb := "old." + a + " is not new." + a, "old." + b + " is not new." + b;
    assert ChangeGuard([a, b]) == ta + OrSep + tb;
  }

  // ----- The key condition: one key match per key column -----

  /** Every key column has its key match in the close statement (which the
      update and the delete trigger share), at the place `Join` gives it, so in
      key order ... */
  lemma CloseMatchesEveryKey(table: string, keys: seq<string>, i: nat)
    requires i < |keys|
    ensures At(CloseOpenRow(table, KeyCondition(keys)), KeyMatch(keys[i]),
               |CloseHead(table)| + Offset(AndSep, Map(KeyMatch, keys), i))
  {
    JoinItemBetween(CloseHead(table), AndSep, Map(KeyMatch, keys), OpenRowTest, i);
  }

  /** ... with `" and "` after every match but the last. */
  lemma CloseSeparatesKeys(table: string, keys: seq<string>, i: nat)
    requires i + 1 < |keys|
    ensures At(CloseOpenRow(table, KeyCondition(keys)), AndSep,
               |CloseHead(table)| + SepAfter(AndSep, Map(KeyMatch, keys), i))
  {
    JoinSepBetween(CloseHead(table), AndSep, Map(KeyMatch, keys), OpenRowTest, i);
  }

  // ----- Lengths: one item per column or key, and nothing else -----

  /** The column list is the escaped names plus `n - 1` separators. */
  lemma ColumnNamesLength(columns: seq<string>)
    requires |columns| > 0
    ensures |ColumnNames(columns)| == TotalLength(Map(Escape, columns)) + (|columns| - 1) * |", "|
  {
    JoinCountsSeparators(", ", Map(Escape, columns));
  }

  /** The value list is the `new.` values plus `n - 1` separators. */
  lemma NewValuesLength(columns: seq<string>)
    requires |columns| > 0
    ensures |NewValues(columns)| == TotalLength(Map(NewValue, columns)) + (|columns| - 1) * |", "|
  {
    JoinCountsSeparators(", ", Map(NewValue, columns));
  }

  /** The key condition is its matches plus `n - 1` `" and "` separators. */
  lemma KeyConditionLength(keys: seq<string>)
    requires |keys| > 0
    ensures |KeyCondition(keys)| == TotalLength(Map(KeyMatch, keys)) + (|keys| - 1) * |AndSep|
  {
    JoinCountsSeparators(AndSep, Map(KeyMatch, keys));
  }

  // ----- Per-column and per-key facts about the whole output -----
  //
  // `TriggersSql` returns `TriggersText(table, columns, keys)`, which is
  // `TriggersTemplate` filled in with `ColumnNames(columns)`, `ChangeGuard(columns)`,
  // `KeyCondition(keys)` and `NewValues(columns)`.  The lemmas below are stated for
  // the template with the fill-ins that matter to them given, the others left free.

  /** Every column's change test is in the output, inside the update trigger's guard. */
  lemma OutputTestsEveryColumn(table: string, columnNames: string, columns: seq<string>, keyCondition: string,
                               newValues: string, i: nat)
    requires i < |columns|
    ensures At(TriggersTemplate(table, columnNames, ChangeGuard(columns), keyCondition, newValues),
               ChangeTest(columns[i]),
               |InsertTrigger(table, columnNames, newValues)| + (|GuardPrefix(table)| + Offset(OrSep, Map(ChangeTest, columns), i)))
  {
    JoinItemNestedInMiddle(InsertTrigger(table, columnNames, newValues), GuardPrefix(table), OrSep, Map(ChangeTest, columns),
                           GuardSuffix, UpdateBody(table, columnNames, keyCondition, newValues),
                           DeleteTrigger(table, keyCondition), i);
  }

  /** Every key's match is in the output, inside the update trigger's close statement ... */
  lemma OutputUpdateMatchesEveryKey(table: string, columnNames: string, guard: string, keys: seq<string>,
                                    newValues: string, i: nat)
    requires i < |keys|
    ensures At(TriggersTemplate(table, columnNames, guard, KeyCondition(keys), newValues),
               KeyMatch(keys[i]),
               |InsertTrigger(table, columnNames, newValues)|
                 + (|UpdateHead(table, guard)| + (|CloseHead(table)| + Offset(AndSep, Map(KeyMatch, keys), i))))
  {
    JoinItemNestedInMiddle2(InsertTrigger(table, columnNames, newValues), UpdateHead(table, guard), CloseHead(table),
                            AndSep, Map(KeyMatch, keys), OpenRowTest, Reinsert(table, columnNames, newValues),
                            DeleteTrigger(table, KeyCondition(keys)), i);
  }

  /** ... and again inside the delete trigger's close statement. */
  lemma OutputDeleteMatchesEveryKey(table: string, columnNames: string, guard: string, keys: seq<string>,
                                    newValues: string, i: nat)
    requires i < |keys|
    ensures At(TriggersTemplate(table, columnNames, guard, KeyCondition(keys), newValues),
               KeyMatch(keys[i]),
               |InsertTrigger(table, columnNames, newValues)| + |UpdateTrigger(table, columnNames, guard, KeyCondition(keys), newValues)|
                 + (|DeleteHead(table)| + (|CloseHead(table)| + Offset(AndSep, Map(KeyMatch, keys), i))))
  {
    JoinItemNestedInLast(InsertTrigger(table, columnNames, newValues),
                         UpdateTrigger(table, columnNames, guard, KeyCondition(keys), newValues),
                         DeleteHead(table), CloseHead(table), AndSep, Map(KeyMatch, keys), OpenRowTest, TriggerEnd, i);
  }
}

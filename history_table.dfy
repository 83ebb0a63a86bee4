/** `history_table_sql`: the DDL of the history table that mirrors a source table
    (every source column, then the validity interval) and of the index on its key
    columns and validity interval.  The table name is inserted as given, never
    escaped; column names are escaped; column types are inserted verbatim. */
module HistoryTable {
  import opened Strings
  import opened SqliteEscape

  /** One `(name, type)` pair as the schema lists it; the type is free text and may be empty. */
  datatype Column = Column(name: string, sqlType: string)

  /** `"    {name} {type}"` for one column. */
  function ColumnLine(c: Column): string
  {
    "    " + Escape(c.name) + " " + c.sqlType
  }

  /** What separates two column lines. */
  const LineBreak: string := ",\n"

  /** What separates two key names. */
  const Comma: string := ", "

  /** The `{column_names}` value: the column lines joined by `",\n"`. */
  function ColumnLines(columns: seq<Column>): string
  {
    Join(LineBreak, Map(ColumnLine, columns))
  }

  /** The `{key_columns}` value: the escaped key names joined by `", "`. */
  function KeyList(keys: seq<string>): string
  {
    Join(Comma, Map(Escape, keys))
  }

  /** The template text up to `{column_names}`. */
  function TableHead(table: string): string
  {
    "\nCREATE TABLE _" + table + "_history (\n"
  }

  /** The two columns every history row adds, closing the `CREATE TABLE`. */
  const ValidityColumns: string := ",\n        valid_from        TEXT,\n        valid_to        TEXT\n);\n"

  /** The template text from the `CREATE INDEX` up to `{key_columns}`. */
  function IndexHead(table: string): string
  {
    "CREATE INDEX idx_" + table + "_history_keys ON _" + table + "_history ( "
  }

  /** The end of the index column list. */
  const IndexTail: string := ", valid_from, valid_to );\n"

  /** The `str.format` template of `history_table_sql`, with its three
      placeholders filled in. */
  function HistoryTemplate(table: string, columnLines: string, keyList: string): string
  {
    TableHead(table) + columnLines + ValidityColumns + IndexHead(table) + keyList + IndexTail
  }

  /** `history_table_sql(table, columns_and_types, key_columns)` */
  function HistoryTableSql(table: string, columns: seq<Column>, keys: seq<string>): string
  {
    HistoryTemplate(table, ColumnLines(columns), KeyList(keys))
  }

  /** The template's fixed text surrounds its placeholders in order: the table
      head (naming `_{table}_history` with the table as given), the column block,
      the validity columns, the index head (naming `idx_{table}_history_keys`),
      the key list, and the index tail, with nothing else in between. */
  lemma HistoryTemplateLayout(table: string, columnLines: string, keyList: string)
    ensures var sql := HistoryTemplate(table, columnLines, keyList);
      && At(sql, TableHead(table), 0)
      && At(sql, columnLines, |TableHead(table)|)
      && At(sql, ValidityColumns, |TableHead(table)| + |columnLines|)
      && At(sql, IndexHead(table), |TableHead(table)| + |columnLines| + |ValidityColumns|)
      && At(sql, keyList, |TableHead(table)| + |columnLines| + |ValidityColumns| + |IndexHead(table)|)
      && |sql| == |TableHead(table)| + |columnLines| + |ValidityColumns| + |IndexHead(table)| + |keyList| + |IndexTail|
      && EndsWith(sql, IndexTail)
  {
    SixPartsInOrder(TableHead(table), columnLines, ValidityColumns, IndexHead(table), keyList, IndexTail);
  }

  /** Every column gets its own line `"    " + escaped name + " " + type`, at the
      place `Join` gives it, so in input order ... */
  lemma HistoryTableListsEveryColumn(table: string, columns: seq<Column>, keys: seq<string>, i: nat)
    requires i < |columns|
    ensures At(HistoryTableSql(table, columns, keys), ColumnLine(columns[i]),
               |TableHead(table)| + Offset(LineBreak, Map(ColumnLine, columns), i))
  {
    JoinItemSecondOfSix(TableHead(table), LineBreak, Map(ColumnLine, columns), ValidityColumns, IndexHead(table), KeyList(keys), IndexTail, i);
  }

  /** ... with `",\n"` after every line but the last. */
  lemma HistoryTableSeparatesColumns(table: string, columns: seq<Column>, keys: seq<string>, i: nat)
    requires i + 1 < |columns|
    ensures At(HistoryTableSql(table, columns, keys), LineBreak,
               |TableHead(table)| + SepAfter(LineBreak, Map(ColumnLine, columns), i))
  {
    JoinSepSecondOfSix(TableHead(table), LineBreak, Map(ColumnLine, columns), ValidityColumns, IndexHead(table), KeyList(keys), IndexTail, i);
  }

  /** Every key gets its own entry in the index, escaped, at the place `Join`
      gives it, so in key order ... */
  lemma HistoryIndexListsEveryKey(table: string, columns: seq<Column>, keys: seq<string>, i: nat)
    requires i < |keys|
    ensures At(HistoryTableSql(table, columns, keys), Escape(keys[i]),
               |TableHead(table)| + |ColumnLines(columns)| + |ValidityColumns| + |IndexHead(table)| + Offset(Comma, Map(Escape, keys), i))
  {
    JoinItemFifthOfSix(TableHead(table), ColumnLines(columns), ValidityColumns, IndexHead(table), Comma, Map(Escape, keys), IndexTail, i);
  }

  /** ... with `", "` after every key but the last. */
  lemma HistoryIndexSeparatesKeys(table: string, columns: seq<Column>, keys: seq<string>, i: nat)
    requires i + 1 < |keys|
    ensures At(HistoryTableSql(table, columns, keys), Comma,
               |TableHead(table)| + |ColumnLines(columns)| + |ValidityColumns| + |IndexHead(table)| + SepAfter(Comma, Map(Escape, keys), i))
  {
    JoinSepFifthOfSix(TableHead(table), ColumnLines(columns), ValidityColumns, IndexHead(table), Comma, Map(Escape, keys), IndexTail, i);
  }

  /** The column block is exactly as long as its lines plus one `",\n"` between
      each two of them: `n` columns give `n - 1` separators. */
  lemma ColumnLinesLength(columns: seq<Column>)
    requires |columns| > 0
    ensures |ColumnLines(columns)| == TotalLength(Map(ColumnLine, columns)) + (|columns| - 1) * |LineBreak|
  {
    JoinCountsSeparators(LineBreak, Map(ColumnLine, columns));
  }

  /** The index key list is exactly the escaped keys plus one `", "` between each
      two of them. */
  lemma KeyListLength(keys: seq<string>)
    requires |keys| > 0
    ensures |KeyList(keys)| == TotalLength(Map(Escape, keys)) + (|keys| - 1) * |Comma|
  {
    JoinCountsSeparators(Comma, Map(Escape, keys));
  }

  /** A column line is four spaces, the escaped name, one space and the type
      exactly as given. */
  lemma ColumnLineLayout(c: Column)
    ensures At(ColumnLine(c), Escape(c.name), 4)
    ensures EndsWith(ColumnLine(c), " " + c.sqlType)
  {
    AtSelf(Escape(c.name));
    AtMiddle("    ", Escape(c.name), " ", Escape(c.name), 0);
    AtLeft("    " + Escape(c.name) + " ", c.sqlType, Escape(c.name), 4);
    EndsWithLastTwo("    " + Escape(c.name), " ", c.sqlType);
  }

  /** With an empty key list the output ends with the index head followed
      directly by the index tail. */
  lemma TemplateWithoutKeys(table: string, columnLines: string)
    ensures EndsWith(HistoryTemplate(table, columnLines, ""), IndexHead(table) + IndexTail)
  {
    var pre := TableHead(table) + columnLines + ValidityColumns;
    assert pre + IndexHead(table) + "" == pre + IndexHead(table);
    EndsWithLastTwo(pre, IndexHead(table), IndexTail);
  }

  /** With no key columns the index column list degenerates to
      `( , valid_from, valid_to )`: the output ends with `"( "` followed directly
      by the index tail. */
  lemma HistoryIndexWithoutKeys(table: string, columns: seq<Column>)
    ensures EndsWith(HistoryTableSql(table, columns, []), "( " + IndexTail)
  {
    assert KeyList([]) == "";
    TemplateWithoutKeys(table, ColumnLines(columns));
    EmptyIndexColumnList(table);
    EndsWithTrans(HistoryTableSql(table, columns, []), IndexHead(table) + IndexTail, "( " + IndexTail);
  }

  /** The index head ends with `"( "`, so followed directly by the tail it ends
      with `"( " + IndexTail`, that is `( , valid_from, valid_to );` and a newline. */
  lemma EmptyIndexColumnList(table: string)
    ensures EndsWith(IndexHead(table) + IndexTail, "( " + IndexTail)
  {
    TailAfterParen();
    EndsWithOfLastTwo("CREATE INDEX idx_" + table + "_history_keys ON _" + table, "_history ( ", IndexTail,
                      "( " + IndexTail);
  }

  /** The fixed end of the index head, `"_history ( "`, followed by the tail. */
  lemma TailAfterParen()
    ensures EndsWith("_history ( " + IndexTail, "( " + IndexTail)
  {
    assert "_history ( "[9..] == "( ";
    EndsWithAppend("_history ( ", "( ", IndexTail);
  }
}

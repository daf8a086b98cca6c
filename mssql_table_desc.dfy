/** `getDdlTableDesc` for SQL Server (src/ddl/mssql/getDdlTableDesc.ts): the table's and its
    columns' MS_Description comments as `sp_addextendedproperty` calls. */
module MssqlTableDesc {
  import opened Wrappers
  import opened Text

  /** A row of the column-comment query. */
  datatype ColumnComment = ColumnComment(columnName: string, comments: string)

  const PropertyProcedure := "sp_addextendedproperty"

  /** The call up to the opening quote of the comment literal. */
  const CallHead := "EXEC " + PropertyProcedure + " 'MS_Description', N'"

  /** The part after the comment literal that names the table. */
  function TableTarget(schema: string, table: string): string
  {
    "', 'SCHEMA', N'" + schema + "', 'TABLE', N'" + table + "'"
  }

  function TableCommentLine(schema: string, table: string, comment: string): string
  {
    CallHead + DoubleQuotes(comment) + TableTarget(schema, table) + ";"
  }

  function ColumnCommentLine(schema: string, table: string, c: ColumnComment): string
  {
    CallHead + DoubleQuotes(c.comments) + TableTarget(schema, table) + ", 'COLUMN', N'" + c.columnName + "';"
  }

  /** The table-comment lines, then the column-comment lines, each in row order. */
  function DescLines(schema: string, table: string, tableComments: seq<string>, columnComments: seq<ColumnComment>): (r: seq<string>)
    ensures |r| == |tableComments| + |columnComments|
    ensures forall k :: 0 <= k < |tableComments| ==> r[k] == TableCommentLine(schema, table, tableComments[k])
    ensures forall k :: 0 <= k < |columnComments| ==>
      r[|tableComments| + k] == ColumnCommentLine(schema, table, columnComments[k])
  {
    var t := seq(|tableComments|, k requires 0 <= k < |tableComments| => TableCommentLine(schema, table, tableComments[k]));
    var c := seq(|columnComments|, k requires 0 <= k < |columnComments| => ColumnCommentLine(schema, table, columnComments[k]));
    assert forall k :: 0 <= k < |columnComments| ==> (t + c)[|t| + k] == c[k];
    t + c
  }

  /** `getDdlTableDesc`: the table-comment query, then the column-comment query, then the lines
      joined by newlines and trimmed. */
  function TableDescDdl(schema: string, table: string, tableComments: Result<seq<string>>,
                        columnComments: Result<seq<ColumnComment>>): Result<string>
  {
    if tableComments.Err? then Err(tableComments.error)
    else if columnComments.Err? then Err(columnComments.error)
    else Ok(Trim(Join(DescLines(schema, table, tableComments.value, columnComments.value), "\n")))
  }

  /** Each table comment sits right after the call head, quote-doubled so that its quotes come in
      pairs and it reads back unchanged, and the literal is closed by the quote that opens the
      table target. */
  lemma TableCommentLineDecode(schema: string, table: string, comment: string)
    ensures var t, d := TableCommentLine(schema, table, comment), DoubleQuotes(comment);
      StartsWith(t, CallHead) && t[|CallHead|..|CallHead| + |d|] == d &&
      UndoubleQuotes(d) == comment && QuotesPaired(d) &&
      t[|CallHead| + |d|..] == TableTarget(schema, table) + ";"
  {
    UndoubleDoubleQuotes(comment);
    DoubleQuotesPaired(comment);
    var d := DoubleQuotes(comment);
    var t := TableCommentLine(schema, table, comment);
    assert t == CallHead + d + (TableTarget(schema, table) + ";");
  }

  /** The same for a column comment; only a column line goes on, after the table target, to name
      its column. */
  lemma ColumnCommentLineDecode(schema: string, table: string, c: ColumnComment)
    ensures var l, d := ColumnCommentLine(schema, table, c), DoubleQuotes(c.comments);
      StartsWith(l, CallHead) && l[|CallHead|..|CallHead| + |d|] == d &&
      UndoubleQuotes(d) == c.comments && QuotesPaired(d) &&
      l[|CallHead| + |d|..] == TableTarget(schema, table) + ", 'COLUMN', N'" + c.columnName + "';"
  {
    UndoubleDoubleQuotes(c.comments);
    DoubleQuotesPaired(c.comments);
    var d := DoubleQuotes(c.comments);
    var l := ColumnCommentLine(schema, table, c);
    assert l == CallHead + d + (TableTarget(schema, table) + ", 'COLUMN', N'" + c.columnName + "';");
  }

  predicate OpensAndCloses(line: string)
  {
    line != [] && line[0] == 'E' && line[|line| - 1] == ';'
  }

  lemma TableLineEnds(schema: string, table: string, comment: string)
    ensures OpensAndCloses(TableCommentLine(schema, table, comment))
  {
    var mid := DoubleQuotes(comment) + TableTarget(schema, table);
    assert TableCommentLine(schema, table, comment) == CallHead + (mid + ";");
    assert CallHead[0] == 'E';
  }

  lemma ColumnLineEnds(schema: string, table: string, c: ColumnComment)
    ensures OpensAndCloses(ColumnCommentLine(schema, table, c))
  {
    var mid := DoubleQuotes(c.comments) + TableTarget(schema, table) + ", 'COLUMN', N'" + c.columnName;
    assert ColumnCommentLine(schema, table, c) == CallHead + (mid + "';");
    assert CallHead[0] == 'E';
  }

  /** Every line opens with `E` and closes with `;`. */
  lemma LineEnds(schema: string, table: string, tableComments: seq<string>, columnComments: seq<ColumnComment>)
    ensures var lines := DescLines(schema, table, tableComments, columnComments);
      forall k :: 0 <= k < |lines| ==> OpensAndCloses(lines[k])
  {
    var lines := DescLines(schema, table, tableComments, columnComments);
    forall k | 0 <= k < |lines|
      ensures OpensAndCloses(lines[k])
    {
      if k < |tableComments| {
        TableLineEnds(schema, table, tableComments[k]);
      } else {
        ColumnLineEnds(schema, table, columnComments[k - |tableComments|]);
      }
    }
  }

  /** The description is never an error when both queries succeed: no comments give `""`, and
      otherwise the trim changes nothing, as every line opens with `E` and closes with `;`. */
  lemma TableDescSpec(schema: string, table: string, tableComments: Result<seq<string>>,
                      columnComments: Result<seq<ColumnComment>>)
    ensures var r := TableDescDdl(schema, table, tableComments, columnComments);
      (tableComments.Err? ==> r == Err(tableComments.error)) &&
      (tableComments.Ok? && columnComments.Err? ==> r == Err(columnComments.error)) &&
      (tableComments.Ok? && columnComments.Ok? ==>
        var lines := DescLines(schema, table, tableComments.value, columnComments.value);
        r == Ok(Join(lines, "\n")) &&
        (r.value == "" <==> tableComments.value == [] && columnComments.value == []))
  {
    if tableComments.Ok? && columnComments.Ok? {
      var lines := DescLines(schema, table, tableComments.value, columnComments.value);
      if lines == [] {
        TrimOfTrimmed("");
      } else {
        LineEnds(schema, table, tableComments.value, columnComments.value);
        JoinEnds(lines, "\n");
        TrimOfTrimmed(Join(lines, "\n"));
      }
    }
  }
}

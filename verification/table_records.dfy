/**
 * Decoding of a table payload into the grid's column definitions and
 * records. `JSON.parse` is the parameter `parse`: it yields the parsed
 * `{columns, data}` value or `None` where the source catches a parse error.
 * Cell values are of an arbitrary type `V`.
 */
module TableRecords {
  import opened Wrappers
  import opened JsString
  import opened DataUri

  /** The `{columns, data}` value a table payload parses to. */
  datatype TableData<V> = TableData(columns: seq<string>, data: seq<seq<V>>)

  /** The grid's column definition for one column name. */
  datatype ColumnDef = ColumnDef(accessorKey: string, header: string)

  /**
   * A record: the object the reduce builds, from column name to `rs[i]`,
   * which is `None` (JavaScript's `undefined`) past the row's end.
   */
  type Row<V> = map<string, Option<V>>

  /** What the grid receives: the column definitions and one record per data row. */
  datatype TableView<V> = TableView(columns: seq<ColumnDef>, records: seq<Row<V>>)

  /** `columns.map(name => ({accessorKey: name, header: name}))`. */
  function ColumnDefs(columns: seq<string>): (defs: seq<ColumnDef>)
    ensures |defs| == |columns|
    ensures forall i :: 0 <= i < |columns| ==>
      defs[i].accessorKey == columns[i] && defs[i].header == columns[i]
  {
    if columns == [] then []
    else [ColumnDef(columns[0], columns[0])] + ColumnDefs(columns[1..])
  }

  /**
   * The record that `columns.reduce((d, column, i) => { d[column] = rs[i]; return d }, {})`
   * leaves: each column assigned in turn, so a later assignment overwrites an earlier one.
   */
  function Record<V>(columns: seq<string>, row: seq<V>): Row<V>
    decreases |columns|
  {
    if columns == [] then map[]
    else
      var n := |columns| - 1;
      Record(columns[..n], row)[columns[n] := Element(row, n)]
  }

  /** Position `i` holds the last occurrence of its column name. */
  predicate LastOccurrence(columns: seq<string>, i: int)
  {
    0 <= i < |columns| && forall j :: i < j < |columns| ==> columns[j] != columns[i]
  }

  /** A record has exactly the column names as keys. */
  lemma {:induction false} RecordKeys<V>(columns: seq<string>, row: seq<V>)
    ensures forall k :: k in Record(columns, row) <==> k in columns
    decreases |columns|
  {
    if columns != [] {
      var n := |columns| - 1;
      RecordKeys(columns[..n], row);
      assert columns == columns[..n] + [columns[n]];
      forall k ensures k in columns <==> k in columns[..n] || k == columns[n] {
        if k in columns {
          var j :| 0 <= j < |columns| && columns[j] == k;
          if j < n {
            assert columns[..n][j] == k;
          }
        }
      }
    }
  }

  /** A column takes the row's value at its last occurrence, `undefined` past the row's end. */
  lemma {:induction false} RecordLastWins<V>(columns: seq<string>, row: seq<V>, i: int)
    requires LastOccurrence(columns, i)
    ensures columns[i] in Record(columns, row)
    ensures Record(columns, row)[columns[i]] == Element(row, i)
    decreases |columns|
  {
    var n := |columns| - 1;
    if i < n {
      assert columns[n] != columns[i];
      assert LastOccurrence(columns[..n], i);
      RecordLastWins(columns[..n], row, i);
    }
  }

  /** The reduce, as the accumulator loop it is. */
  method ZipRow<V>(columns: seq<string>, row: seq<V>) returns (d: Row<V>)
    ensures d == Record(columns, row)
    ensures forall k :: k in d <==> k in columns
    ensures forall i :: LastOccurrence(columns, i) ==> d[columns[i]] == Element(row, i)
  {
    d := map[];
    var i := 0;
    while i < |columns|
      invariant 0 <= i <= |columns|
      invariant d == Record(columns[..i], row)
    {
      assert columns[..i + 1][..i] == columns[..i];
      d := d[columns[i] := Element(row, i)];
      i := i + 1;
    }
    assert columns[..i] == columns;
    RecordKeys(columns, row);
    forall i | LastOccurrence(columns, i) ensures d[columns[i]] == Element(row, i) {
      RecordLastWins(columns, row, i);
    }
  }

  /** `data.data.map(rs => ...)`: one record per data row, in order. */
  method BuildRecords<V>(t: TableData<V>) returns (records: seq<Row<V>>)
    ensures |records| == |t.data|
    ensures forall r :: 0 <= r < |t.data| ==> records[r] == Record(t.columns, t.data[r])
  {
    records := [];
    for r := 0 to |t.data|
      invariant |records| == r
      invariant forall q :: 0 <= q < r ==> records[q] == Record(t.columns, t.data[q])
    {
      var d := ZipRow(t.columns, t.data[r]);
      records := records + [d];
    }
  }

  /** The records of a parsed table. */
  function Records<V>(t: TableData<V>): seq<Row<V>>
  {
    seq(|t.data|, r requires 0 <= r < |t.data| => Record(t.columns, t.data[r]))
  }

  /**
   * What `render_table_data` hands the grid, or `None` (the `null` it returns)
   * on a parse failure: the specification of `RenderTable`.
   */
  function TableViewOf<V>(content: string, parse: string -> Option<TableData<V>>): Option<TableView<V>>
  {
    match parse(TablePayload(content))
    case None => None
    case Some(t) => Some(TableView(ColumnDefs(t.columns), Records(t)))
  }

  /**
   * `render_table_data`'s decoding: strip the prefix, parse, build columns and
   * records; `TableViewOf` is its specification.
   */
  method RenderTable<V>(content: string, parse: string -> Option<TableData<V>>)
    returns (grid: Option<TableView<V>>)
    ensures grid == TableViewOf(content, parse)
    ensures grid.None? <==> parse(TablePayload(content)).None?
    ensures grid.Some? ==>
      var t := parse(TablePayload(content)).value;
      |grid.value.columns| == |t.columns| &&
      (forall i :: 0 <= i < |t.columns| ==>
        grid.value.columns[i] == ColumnDef(t.columns[i], t.columns[i])) &&
      |grid.value.records| == |t.data| &&
      (forall r :: 0 <= r < |t.data| ==> grid.value.records[r] == Record(t.columns, t.data[r]))
  {
    var payload := TablePayload(content);
    match parse(payload)
    case None =>
      grid := None;
    case Some(t) =>
      var records := BuildRecords(t);
      assert records == Records(t);
      grid := Some(TableView(ColumnDefs(t.columns), records));
  }
}

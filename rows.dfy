/** The row cursor over one buffered result: column metadata lookups, the lazily cached
    column names, and Next, which decodes the current row into the caller's slots. */
module RowCursor {
  import opened Wrappers
  import opened Values
  import opened Decoder

  /** The outcome of Next: a row was decoded, the rows are exhausted (io.EOF), or a cell
      failed to decode. */
  datatype NextResult = Advanced | EOF | Failed(err: Error)

  /** What Next needs of a row: a descriptor for every cell, and every cell decodable by it. */
  predicate RowDecodable(row: Row, columns: seq<ColumnInfo>) {
    |row| <= |columns| && forall i | 0 <= i < |row| :: ColumnDecodable(row[i], columns[i])
  }

  /** The row decoded cell by cell, left to right: every value, or the index and error of the
      first cell that fails. */
  function DecodeRow(row: Row, columns: seq<ColumnInfo>, floats: FloatCodec): Result<seq<Value>, (nat, Error)>
    requires RowDecodable(row, columns)
  {
    if row == [] then Ok([])
    else
      var n := |row| - 1;
      match DecodeRow(row[..n], columns, floats)
      case Err(e) => Err(e)
      case Ok(values) =>
        match ScanColumn(row[n], columns[n], floats)
        case Ok(v) => Ok(values + [v])
        case Err(e) => Err((n, e))
  }

  /** DecodeRow succeeds exactly when every cell decodes, and then yields each cell's value in
      order; otherwise it reports the first failing cell and that cell's error. */
  lemma {:induction false} DecodeRowSpec(row: Row, columns: seq<ColumnInfo>, floats: FloatCodec)
    requires RowDecodable(row, columns)
    ensures DecodeRow(row, columns, floats).Ok?
            <==> forall i | 0 <= i < |row| :: ScanColumn(row[i], columns[i], floats).Ok?
    ensures DecodeRow(row, columns, floats).Ok? ==>
              var values := DecodeRow(row, columns, floats).value;
              |values| == |row|
              && forall i | 0 <= i < |row| :: values[i] == ScanColumn(row[i], columns[i], floats).value
    ensures DecodeRow(row, columns, floats).Err? ==>
              var (k, e) := DecodeRow(row, columns, floats).error;
              && k < |row| && ScanColumn(row[k], columns[k], floats) == Err(e)
              && forall i | 0 <= i < k :: ScanColumn(row[i], columns[i], floats).Ok?
  {
    if row != [] {
      var n := |row| - 1;
      var prefix := row[..n];
      assert forall i | 0 <= i < n :: prefix[i] == row[i];
      DecodeRowSpec(prefix, columns, floats);
      if DecodeRow(prefix, columns, floats).Err? {
        var (k, e) := DecodeRow(prefix, columns, floats).error;
        assert prefix[k] == row[k];
      }
    }
  }

  /** A prefix of a decodable row decodes to the prefix of a successful decoding. */
  lemma {:induction false} DecodeRowExtend(row: Row, columns: seq<ColumnInfo>, floats: FloatCodec, i: nat, values: seq<Value>)
    requires RowDecodable(row, columns) && i < |row|
    requires DecodeRow(row[..i], columns, floats) == Ok(values)
    ensures ScanColumn(row[i], columns[i], floats).Ok? ==>
              DecodeRow(row[..i + 1], columns, floats) == Ok(values + [ScanColumn(row[i], columns[i], floats).value])
    ensures ScanColumn(row[i], columns[i], floats).Err? ==>
              DecodeRow(row[..i + 1], columns, floats) == Err((i, ScanColumn(row[i], columns[i], floats).error))
  {
    assert row[..i + 1][..i] == row[..i];
  }

  /** Once a prefix of the row fails, the whole row fails with the same cell and error. */
  lemma {:induction false} DecodeRowErrorPersists(row: Row, columns: seq<ColumnInfo>, floats: FloatCodec, i: nat)
    requires RowDecodable(row, columns) && i <= |row|
    requires DecodeRow(row[..i], columns, floats).Err?
    ensures DecodeRow(row, columns, floats) == DecodeRow(row[..i], columns, floats)
    decreases |row| - i
  {
    if i < |row| {
      assert row[..i + 1][..i] == row[..i];
      DecodeRowErrorPersists(row, columns, floats, i + 1);
    } else {
      assert row[..i] == row;
    }
  }

  /** The rows of one buffered result and the cursor over them. */
  class Rows {
    var columns: seq<ColumnInfo>
    var columnNames: Option<seq<string>>
    var rows: seq<Row>
    var pos: nat

    predicate Valid()
      reads this
    {
      pos <= |rows|
    }

    constructor(columns: seq<ColumnInfo>, rows: seq<Row>)
      ensures Valid()
      ensures this.columns == columns && this.rows == rows
      ensures columnNames.None? && pos == 0
    {
      this.columns := columns;
      this.rows := rows;
      columnNames := None;
      pos := 0;
    }

    /** getColumn: the descriptor at index, or none past the last column. */
    function GetColumn(index: nat): (ci: Option<ColumnInfo>)
      reads this
      ensures ci.Some? <==> index < |columns|
      ensures ci.Some? ==> ci.value == columns[index]
    {
      if |columns| <= index then None else Some(columns[index])
    }

    /** ColumnTypeDatabaseTypeName: the column's scalar type name, or UNKNOWN. */
    function ColumnTypeDatabaseTypeName(index: nat): (name: string)
      reads this
      ensures index < |columns| && columns[index].scalarType.Some? ==> name == columns[index].scalarType.value
      ensures name == ScalarTypeUnknown
              <==> index >= |columns| || columns[index].scalarType.None?
                   || columns[index].scalarType.value == ScalarTypeUnknown
    {
      GetTSDataType(GetColumn(index))
    }

    /** ColumnTypeScanType: the native type a column's values are scanned as. */
    function ColumnTypeScanType(index: nat): (t: NativeType)
      reads this
      ensures index >= |columns| ==> t == AnyType
      ensures index < |columns| ==> t == ScanTypeOf(ColumnTypeDatabaseTypeName(index))
    {
      var ci := GetColumn(index);
      if ci.None? then AnyType else ScanTypeOf(GetTSDataType(ci))
    }

    /** Columns: the column names, computed on first use and cached. */
    method Columns() returns (names: seq<string>)
      requires columnNames.Some? || forall i | 0 <= i < |columns| :: columns[i].name.Some?
      modifies this`columnNames
      ensures old(columnNames).Some? ==> names == old(columnNames).value && columnNames == old(columnNames)
      ensures old(columnNames).None? ==>
                && |names| == |columns|
                && (forall i | 0 <= i < |columns| :: names[i] == columns[i].name.value)
                && columnNames == Some(names)
    {
      if columnNames.Some? {
        return columnNames.value;
      }
      var filled := new string[|columns|];
      for i := 0 to |columns|
        invariant forall j | 0 <= j < i :: filled[j] == columns[j].name.value
      {
        filled[i] := columns[i].name.value;
      }
      names := filled[..];
      columnNames := Some(names);
    }

    /** Next: decode the current row into dest and advance, or report the end of the rows.
        A failing cell leaves nil in its slot, keeps the values already written before it and
        does not advance. */
    method Next(dest: array<Value>, floats: FloatCodec) returns (r: NextResult)
      requires Valid()
      requires pos < |rows| ==> RowDecodable(rows[pos], columns) && |rows[pos]| <= dest.Length
      modifies this`pos, dest
      ensures Valid()
      ensures r == EOF <==> old(pos) == |rows|
      ensures r == EOF ==> pos == old(pos) && dest[..] == old(dest[..])
      ensures r == Advanced ==>
                var row := rows[old(pos)];
                && pos == old(pos) + 1
                && DecodeRow(row, columns, floats) == Ok(dest[..|row|])
                && dest[|row|..] == old(dest[|row|..])
      ensures r.Failed? ==>
                var row := rows[old(pos)];
                && pos == old(pos)
                && DecodeRow(row, columns, floats).Err?
                && var (k, e) := DecodeRow(row, columns, floats).error;
                && k < |row|
                && r.err == e
                && DecodeRow(row[..k], columns, floats) == Ok(dest[..k])
                && dest[k] == Nil
                && dest[k + 1..] == old(dest[k + 1..])
    {
      if pos == |rows| {
        return EOF;
      }
      var failure := DecodeInto(rows[pos], columns, floats, dest);
      if failure.Some? {
        return Failed(failure.value.1);
      }
      pos := pos + 1;
      return Advanced;
    }
  }

  /** The cell loop of Next: each cell of the row is decoded into its slot of dest, left to
      right; the first failing cell gets nil and stops the loop with its index and error. */
  method DecodeInto(row: Row, columns: seq<ColumnInfo>, floats: FloatCodec, dest: array<Value>)
    returns (failure: Option<(nat, Error)>)
    requires RowDecodable(row, columns) && |row| <= dest.Length
    modifies dest
    ensures failure.None? ==>
              && DecodeRow(row, columns, floats) == Ok(dest[..|row|])
              && dest[|row|..] == old(dest[|row|..])
    ensures failure.Some? ==>
              var (k, e) := failure.value;
              && k < |row|
              && DecodeRow(row, columns, floats) == Err((k, e))
              && DecodeRow(row[..k], columns, floats) == Ok(dest[..k])
              && dest[k] == Nil
              && dest[k + 1..] == old(dest[k + 1..])
  {
    var i := 0;
    while i < |row|
      invariant 0 <= i <= |row|
      invariant DecodeRow(row[..i], columns, floats) == Ok(dest[..i])
      invariant forall j | i <= j < dest.Length :: dest[j] == old(dest[j])
    {
      var v := ScanColumn(row[i], columns[i], floats);
      var written := dest[..i];
      DecodeRowExtend(row, columns, floats, i, written);
      if v.Err? {
        DecodeRowErrorPersists(row, columns, floats, i + 1);
        dest[i] := Nil;
        assert dest[..i] == written;
        assert dest[i + 1..] == old(dest[i + 1..]);
        return Some((i, v.error));
      }
      dest[i] := v.value;
      assert dest[..i + 1] == written + [v.value];
      i := i + 1;
    }
    assert row[..i] == row;
    assert dest[i..] == old(dest[i..]);
    return None;
  }

  /** An array column is typed like an UNKNOWN column: its type name is UNKNOWN and its scan
      type is the nil type. */
  lemma ArrayColumnTypedAsUnknown(r: Rows, index: nat)
    requires index < |r.columns| && r.columns[index].arrayColumnInfo.Some?
    requires r.columns[index].scalarType.None?
    ensures r.ColumnTypeDatabaseTypeName(index) == ScalarTypeUnknown
    ensures r.ColumnTypeScanType(index) == NullType
  {
  }

  /** A cell that Next decodes successfully under a scalar column has the type that column
      reports as its scan type, with the two integer exceptions of the decoder. */
  lemma DecodedCellHasColumnScanType(r: Rows, index: nat, d: Datum, floats: FloatCodec)
    requires index < |r.columns| && r.columns[index].arrayColumnInfo.None?
    requires ColumnDecodable(d, r.columns[index]) && r.columns[index].scalarType.Some?
    requires ReadsScalarText(r.columns[index].scalarType.value)
             || r.columns[index].scalarType.value == ScalarTypeUnknown
    requires ScanColumn(d, r.columns[index], floats).Ok?
    ensures var v := ScanColumn(d, r.columns[index], floats).value;
            var t := r.columns[index].scalarType.value;
            || TypeOf(v) == r.ColumnTypeScanType(index)
            || (t == ScalarTypeInteger && r.ColumnTypeScanType(index) == IntType && TypeOf(v) == Int64Type)
            || (t == ScalarTypeBigint && r.ColumnTypeScanType(index) == Int64Type && TypeOf(v) == Uint64Type)
  {
    DecodedValueHasScanType(d, r.columns[index], floats);
  }
}

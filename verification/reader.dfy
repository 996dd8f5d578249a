/** `read_sales_data` from the point where `csv.reader` has produced its rows: drop the header,
    keep every non-empty row, and join each kept row's fields with '|'. */
module Reader {
  import opened Text
  import Seqs

  const Delimiter: char := '|'

  /** The test `row and any(field.strip for field in row)`. `field.strip` is a bound method,
      never called, and always truthy, so the test holds exactly for non-empty rows, including
      rows whose fields are all whitespace. */
  predicate RowKept(row: seq<string>)
  {
    |row| > 0
  }

  /** `'|'.join(row)`. */
  function JoinRow(row: seq<string>): string
  {
    Join(row, Delimiter)
  }

  /** The list `read_sales_data` returns for the given reader rows. */
  function ReadRows(rows: seq<seq<string>>): (lines: seq<string>)
    ensures |rows| <= 1 ==> lines == []
    ensures |rows| > 0 ==> |lines| < |rows|
  {
    if |rows| == 0 then [] else Seqs.FilterMap(rows[1..], RowKept, JoinRow)
  }

  /** The loop of `read_sales_data`: take the header with `next(rows, None)`, then append
      the join of every kept row. */
  method ReadSalesData(rows: seq<seq<string>>) returns (data: seq<string>)
    ensures data == ReadRows(rows)
  {
    data := [];
    if |rows| == 0 {
      return;
    }
    var i := 1;
    while i < |rows|
      invariant 1 <= i <= |rows|
      invariant data == Seqs.FilterMap(rows[1..i], RowKept, JoinRow)
    {
      var row := rows[i];
      Seqs.FilterMapConcat(rows[1..i], [row], RowKept, JoinRow);
      assert rows[1..i + 1] == rows[1..i] + [row];
      if |row| > 0 {
        data := data + [JoinRow(row)];
      }
      i := i + 1;
    }
    assert rows[1..i] == rows[1..];
  }

  /** Which rows become lines, and in what order: line k is the join of the k-th kept data
      row (`KeptIndices` counts from the first row after the header); kept positions ascend,
      and a data row is kept iff it is non-empty. The header row is never a line's source. */
  lemma ReadRowsSpec(rows: seq<seq<string>>)
    requires |rows| > 0
    ensures var idx := Seqs.KeptIndices(rows[1..], RowKept);
      && |ReadRows(rows)| == |idx|
      && (forall k :: 0 <= k < |idx| ==> 1 + idx[k] < |rows| && ReadRows(rows)[k] == JoinRow(rows[1 + idx[k]]))
      && (forall k, l :: 0 <= k < l < |idx| ==> idx[k] < idx[l])
      && (forall j :: 1 <= j < |rows| ==> (|rows[j]| > 0 <==> j - 1 in idx))
  {
    var body := rows[1..];
    Seqs.KeptIndicesSpec(body, RowKept);
    Seqs.FilterMapSpec(body, RowKept, JoinRow);
    assert forall j :: 1 <= j < |rows| ==> rows[j] == body[j - 1];
  }

  /** A line is produced iff some data row is non-empty and joins to it. */
  lemma ReadRowsMembership(rows: seq<seq<string>>, line: string)
    ensures line in ReadRows(rows) <==>
      exists j :: 1 <= j < |rows| && |rows[j]| > 0 && line == JoinRow(rows[j])
  {
    if line in ReadRows(rows) {
      var j := LineSource(rows, line);
    }
    if exists j :: 1 <= j < |rows| && |rows[j]| > 0 && line == JoinRow(rows[j]) {
      var j :| 1 <= j < |rows| && |rows[j]| > 0 && line == JoinRow(rows[j]);
      RowLine(rows, j);
    }
  }

  /** A produced line has a non-empty data row that joins to it. */
  lemma LineSource(rows: seq<seq<string>>, line: string) returns (j: nat)
    requires line in ReadRows(rows)
    ensures 1 <= j < |rows| && |rows[j]| > 0 && line == JoinRow(rows[j])
  {
    var lines := ReadRows(rows);
    var k :| 0 <= k < |lines| && lines[k] == line;
    ReadRowsSpec(rows);
    var idx := Seqs.KeptIndices(rows[1..], RowKept);
    assert 1 + idx[k] < |rows| && lines[k] == JoinRow(rows[1 + idx[k]]);
    j := 1 + idx[k];
  }

  /** Every non-empty data row gives a line. */
  lemma RowLine(rows: seq<seq<string>>, j: nat)
    requires 1 <= j < |rows| && |rows[j]| > 0
    ensures JoinRow(rows[j]) in ReadRows(rows)
  {
    ReadRowsSpec(rows);
    var idx := Seqs.KeptIndices(rows[1..], RowKept);
    assert j - 1 in idx;
    var k :| 0 <= k < |idx| && idx[k] == j - 1;
    assert ReadRows(rows)[k] == JoinRow(rows[j]);
  }

  /** Appending data rows appends their lines: earlier rows keep their lines and order. */
  lemma ReadRowsAppend(rows: seq<seq<string>>, more: seq<seq<string>>)
    requires |rows| > 0
    ensures ReadRows(rows + more) == ReadRows(rows) + Seqs.FilterMap(more, RowKept, JoinRow)
  {
    assert (rows + more)[1..] == rows[1..] + more;
    Seqs.FilterMapConcat(rows[1..], more, RowKept, JoinRow);
  }

  /** A data row made only of blank fields is kept; a zero-field row is dropped. */
  lemma BlankRowKept(header: seq<string>)
    ensures ReadRows([header, ["  ", ""], []]) == ["  |"]
  {
    var data: seq<seq<string>> := [["  ", ""], []];
    assert [header, ["  ", ""], []][1..] == data;
    assert Seqs.FilterMap(data[1..], RowKept, JoinRow) == [];
    assert JoinRow(data[0]) == "  |";
  }

  /** Splitting a kept line on '|' gives back the row it was joined from, provided no field
      of that row contains '|' (the reader's quoting could have put one there). */
  lemma ReadRowsRoundTrip(rows: seq<seq<string>>, k: nat)
    requires |rows| > 0
    requires k < |Seqs.KeptIndices(rows[1..], RowKept)|
    requires var j := 1 + Seqs.KeptIndices(rows[1..], RowKept)[k];
      j < |rows| ==> forall f :: 0 <= f < |rows[j]| ==> Delimiter !in rows[j][f]
    ensures var j := 1 + Seqs.KeptIndices(rows[1..], RowKept)[k];
      k < |ReadRows(rows)| && j < |rows| && Split(ReadRows(rows)[k], Delimiter) == rows[j]
  {
    ReadRowsSpec(rows);
    var j := 1 + Seqs.KeptIndices(rows[1..], RowKept)[k];
    assert |rows[j]| > 0;
    SplitJoin(rows[j], Delimiter);
  }
}

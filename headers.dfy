/**
 * The editable list of header rows and the two ways it is read: filtered to
 * the rows that have a key (for export) and flattened into a key-to-value map
 * (for the outbound request), src/App.jsx lines 15-36 and 62.
 */
module Headers {

  /** One row of the headers table; either part may be empty. */
  datatype HeaderRow = HeaderRow(key: string, value: string)

  /** The row the table starts with and falls back to: `{ key: '', value: '' }`. */
  const EmptyRow := HeaderRow("", "")

  /** The two inputs of a row. */
  datatype Field = Key | Value

  /** `handleHeaderChange`: row `idx` gets `v` in `field`; an index outside the list changes nothing. */
  function EditRow(rows: seq<HeaderRow>, idx: int, field: Field, v: string): (r: seq<HeaderRow>)
    ensures |r| == |rows|
    ensures forall i :: 0 <= i < |rows| && i != idx ==> r[i] == rows[i]
    ensures 0 <= idx < |rows| ==>
      && r[idx].key == (if field == Key then v else rows[idx].key)
      && r[idx].value == (if field == Value then v else rows[idx].value)
  {
    seq(|rows|, i requires 0 <= i < |rows| =>
      if i == idx then (if field == Key then rows[i].(key := v) else rows[i].(value := v))
      else rows[i])
  }

  /** `addHeaderRow`: one empty row at the end, the rest as it was. */
  function AppendRow(rows: seq<HeaderRow>): (r: seq<HeaderRow>)
    ensures |r| == |rows| + 1 && r[..|rows|] == rows && r[|rows|] == EmptyRow
  {
    rows + [EmptyRow]
  }

  /** `removeHeaderRow`: keeps every row whose position is not `idx`, in order. */
  function RemoveRow(rows: seq<HeaderRow>, idx: int): (r: seq<HeaderRow>)
    ensures 0 <= idx < |rows| ==> |r| == |rows| - 1
    ensures 0 <= idx < |rows| ==> forall i :: 0 <= i < idx ==> r[i] == rows[i]
    ensures 0 <= idx < |rows| ==> forall i :: idx <= i < |r| ==> r[i] == rows[i + 1]
    ensures !(0 <= idx < |rows|) ==> r == rows
  {
    if rows == [] then []
    else (if idx == 0 then [] else [rows[0]]) + RemoveRow(rows[1..], idx - 1)
  }

  /** The table shows the remove button only while it has more than one row, so it never empties. */
  lemma RemoveOfferedKeepsARow(rows: seq<HeaderRow>, idx: int)
    requires |rows| > 1
    ensures RemoveRow(rows, idx) != []
  {
    if 0 <= idx < |rows| {
      assert |RemoveRow(rows, idx)| == |rows| - 1;
    }
  }

  /** Removing the row just added gives back the list before the add. */
  lemma RemoveUndoesAppend(rows: seq<HeaderRow>)
    ensures RemoveRow(AppendRow(rows), |rows|) == rows
  {
    var r := RemoveRow(AppendRow(rows), |rows|);
    assert forall i :: 0 <= i < |rows| ==> r[i] == AppendRow(rows)[i];
  }

  /** `headers.filter(h => h.key)`: the rows with a non-empty key, in their order. */
  function NamedRows(rows: seq<HeaderRow>): (r: seq<HeaderRow>)
    ensures |r| <= |rows|
    ensures forall i :: 0 <= i < |r| ==> r[i].key != ""
  {
    if rows == [] then []
    else (if rows[0].key != "" then [rows[0]] else []) + NamedRows(rows[1..])
  }

  /** The filter keeps exactly the rows with a key. */
  lemma {:induction false} NamedRowsMembers(rows: seq<HeaderRow>, h: HeaderRow)
    ensures h in NamedRows(rows) <==> h in rows && h.key != ""
  {
    if rows != [] {
      NamedRowsMembers(rows[1..], h);
      assert rows == [rows[0]] + rows[1..];
    }
  }

  /** The filter works piece by piece, so rows keep their relative order. */
  lemma {:induction false} NamedRowsConcat(a: seq<HeaderRow>, b: seq<HeaderRow>)
    ensures NamedRows(a + b) == NamedRows(a) + NamedRows(b)
  {
    if a == [] {
      assert a + b == b;
    } else {
      var head := if a[0].key != "" then [a[0]] else [];
      assert (a + b)[0] == a[0] && (a + b)[1..] == a[1..] + b;
      calc {
        NamedRows(a + b);
        head + NamedRows(a[1..] + b);
        { NamedRowsConcat(a[1..], b); }
        head + (NamedRows(a[1..]) + NamedRows(b));
        (head + NamedRows(a[1..])) + NamedRows(b);
      }
    }
  }

  /** A list whose rows all have keys passes the filter unchanged. */
  lemma {:induction false} NamedRowsOfNamed(rows: seq<HeaderRow>)
    requires forall i :: 0 <= i < |rows| ==> rows[i].key != ""
    ensures NamedRows(rows) == rows
  {
    if rows != [] {
      NamedRowsOfNamed(rows[1..]);
    }
  }

  /**
   * The map the `reduce` in `handleSend` builds: rows folded from the first to
   * the last, each row with a key writing `acc[key] = value`.
   */
  function Flattened(rows: seq<HeaderRow>): map<string, string>
  {
    if rows == [] then map[]
    else
      var acc := Flattened(rows[..|rows| - 1]);
      var h := rows[|rows| - 1];
      if h.key != "" then acc[h.key := h.value] else acc
  }

  /** A key is in the map exactly when some row carries it and it is not empty. */
  lemma {:induction false} FlattenedKeys(rows: seq<HeaderRow>, k: string)
    ensures k in Flattened(rows) <==> k != "" && exists i :: 0 <= i < |rows| && rows[i].key == k
  {
    if rows != [] {
      var front := rows[..|rows| - 1];
      FlattenedKeys(front, k);
      if k != "" && (exists i :: 0 <= i < |rows| && rows[i].key == k) {
        var i :| 0 <= i < |rows| && rows[i].key == k;
        if i < |rows| - 1 {
          assert front[i].key == k;
        }
      }
    }
  }

  /** Last write wins: a key maps to the value of the last row that carries it. */
  lemma {:induction false} FlattenedLastWins(rows: seq<HeaderRow>, i: int)
    requires 0 <= i < |rows| && rows[i].key != ""
    requires forall j :: i < j < |rows| ==> rows[j].key != rows[i].key
    ensures rows[i].key in Flattened(rows) && Flattened(rows)[rows[i].key] == rows[i].value
  {
    if i < |rows| - 1 {
      var front := rows[..|rows| - 1];
      FlattenedLastWins(front, i);
    }
  }

  /** The `reduce` as the loop it is: an accumulator map updated row by row. */
  method FlattenHeaders(rows: seq<HeaderRow>) returns (acc: map<string, string>)
    ensures acc == Flattened(rows)
  {
    acc := map[];
    var i := 0;
    while i < |rows|
      invariant 0 <= i <= |rows|
      invariant acc == Flattened(rows[..i])
    {
      assert rows[..i + 1][..i] == rows[..i];
      if rows[i].key != "" {
        acc := acc[rows[i].key := rows[i].value];
      }
      i := i + 1;
    }
    assert rows[..|rows|] == rows;
  }
}

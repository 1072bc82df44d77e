/** Rows of numbers and the numpy operations the readers apply to them: indexing, `take`,
    appending a row to a matrix of fixed width, and transposing samples x channels into
    channels x samples. */
module Table {
  import opened Errors
  import opened Text

  /** The position Python's `row[k]` (and numpy's `take`) reads in a row of length `n`:
      negative `k` counts from the end; `None` where it raises IndexError. */
  function PyIndex(n: nat, k: int): (r: Option<nat>)
    ensures r.Some? <==> -(n as int) <= k < n
    ensures r.Some? ==> r.value < n
  {
    if 0 <= k < n then Some(k) else if -(n as int) <= k < 0 then Some(n + k) else None
  }

  /** `np.take(row, idx)`: the entries at positions `idx`, in that order. */
  function Take<T>(row: seq<T>, idx: seq<int>): (r: Result<seq<T>>)
    ensures r.Ok? <==> forall k :: 0 <= k < |idx| ==> PyIndex(|row|, idx[k]).Some?
    ensures r.Err? ==> r.error == IndexError
    ensures r.Ok? ==> |r.value| == |idx|
    ensures r.Ok? ==> forall k :: 0 <= k < |idx| ==> r.value[k] == row[PyIndex(|row|, idx[k]).value]
  {
    if idx == [] then Ok([])
    else match Take(row, idx[..|idx| - 1])
      case Err(e) => Err(e)
      case Ok(front) =>
        match PyIndex(|row|, idx[|idx| - 1])
        case None => Err(IndexError)
        case Some(j) => Ok(front + [row[j]])
  }

  /** Each row projected onto the columns `idx`; the first row too short for some column
      raises IndexError. */
  function SelectedRows(rows: seq<seq<int>>, idx: seq<int>): (r: Result<seq<seq<int>>>)
    ensures r.Ok? <==> forall s :: 0 <= s < |rows| ==> Take(rows[s], idx).Ok?
    ensures r.Err? ==> r.error == IndexError
    ensures r.Ok? ==> |r.value| == |rows|
    ensures r.Ok? ==> forall s :: 0 <= s < |rows| ==> r.value[s] == Take(rows[s], idx).value
  {
    if rows == [] then Ok([])
    else
      var init := rows[..|rows| - 1];
      assert forall s :: 0 <= s < |init| ==> init[s] == rows[s];
      var last := Take(rows[|rows| - 1], idx);
      match SelectedRows(init, idx)
      case Err(e) => Err(e)
      case Ok(front) => if last.Err? then Err(IndexError) else Ok(front + [last.value])
  }

  /** The rows read from `lines`, one per line, `parse` (numpy's reader for one separator,
      `Numbers(sep)`) reading each. */
  function Parsed(lines: seq<string>, parse: string -> seq<int>): (rows: seq<seq<int>>)
    ensures |rows| == |lines|
  {
    seq(|lines|, s requires 0 <= s < |lines| => parse(lines[s]))
  }

  /** Parsing the lines from `from` on gives line `i` parsed at position `i - from`. */
  lemma ParsedFromAt(lines: seq<string>, from: nat, i: nat, parse: string -> seq<int>)
    requires from <= i < |lines|
    ensures Parsed(lines[from..], parse)[i - from] == parse(lines[i])
  {
    assert lines[from..][i - from] == lines[i];
  }

  /** Parsing one more line adds its row at the end. */
  lemma ParsedSnoc(lines: seq<string>, line: string, parse: string -> seq<int>)
    ensures Parsed(lines + [line], parse) == Parsed(lines, parse) + [parse(line)]
  {
    assert forall s :: 0 <= s < |lines| ==> (lines + [line])[s] == lines[s];
  }

  /** Projecting one more row: the projection of the new row is appended, or IndexError. */
  lemma SelectedRowsSnoc(rows: seq<seq<int>>, row: seq<int>, idx: seq<int>)
    ensures SelectedRows(rows + [row], idx) ==
      if SelectedRows(rows, idx).Ok? && Take(row, idx).Ok? then Ok(SelectedRows(rows, idx).value + [Take(row, idx).value])
      else Err(IndexError)
  {
    assert (rows + [row])[..|rows|] == rows;
  }

  /** One row too short for a column is enough to make the selection fail. */
  lemma SelectedRowsBadRow(rows: seq<seq<int>>, idx: seq<int>, k: nat)
    requires k < |rows| && Take(rows[k], idx).Err?
    ensures SelectedRows(rows, idx) == Err(IndexError)
  {
  }

  /** Selecting from the lines from `from` on fails when one of them is too short. */
  lemma SelectedRowsBadLine(lines: seq<string>, from: nat, i: nat, idx: seq<int>, parse: string -> seq<int>)
    requires from <= i < |lines| && Take(parse(lines[i]), idx).Err?
    ensures SelectedRows(Parsed(lines[from..], parse), idx) == Err(IndexError)
  {
    ParsedFromAt(lines, from, i, parse);
    SelectedRowsBadRow(Parsed(lines[from..], parse), idx, i - from);
  }

  /** Rows appended one by one to a matrix `width` columns wide: a row of another width makes
      `np.append` raise ValueError. */
  function FixedWidthRows(rows: seq<seq<int>>, width: nat): (r: Result<seq<seq<int>>>)
    ensures r.Ok? ==> forall s :: 0 <= s < |r.value| ==> |r.value[s]| == width
  {
    if forall s :: 0 <= s < |rows| ==> |rows[s]| == width then Ok(rows) else Err(ValueError)
  }

  /** One row of another width is enough to make the appends fail. */
  lemma FixedWidthRowsBadRow(rows: seq<seq<int>>, width: nat, k: nat)
    requires k < |rows| && |rows[k]| != width
    ensures FixedWidthRows(rows, width) == Err(ValueError)
  {
  }

  /** `np.transpose` of a samples x channels matrix whose rows all have `width` entries. */
  function Transpose<T>(rows: seq<seq<T>>, width: nat): (m: seq<seq<T>>)
    requires forall s :: 0 <= s < |rows| ==> |rows[s]| == width
    ensures |m| == width
    ensures forall c :: 0 <= c < width ==> |m[c]| == |rows| && forall s :: 0 <= s < |rows| ==> m[c][s] == rows[s][c]
  {
    seq(width, c requires 0 <= c < width => seq(|rows|, s requires 0 <= s < |rows| => rows[s][c]))
  }

  /** An entry of the transposed projection is the entry of the source row at the projected
      position. */
  lemma ProjectedEntry(rows: seq<seq<int>>, idx: seq<int>, c: nat, s: nat)
    requires SelectedRows(rows, idx).Ok? && c < |idx| && s < |rows|
    ensures PyIndex(|rows[s]|, idx[c]).Some?
    ensures Transpose(SelectedRows(rows, idx).value, |idx|)[c][s] == rows[s][PyIndex(|rows[s]|, idx[c]).value]
  {
    assert Take(rows[s], idx).Ok?;
  }
}

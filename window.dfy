/** The contact-force reader the scripts share: a `read_data` flag that flips at line index
    `7 + start`, a row appended for every later line, and a `break` once the line index reaches
    `7 + start + 50`. Each kept line is read as numbers by `parse` (numpy's `fromstring` for the
    file's separator, `Numbers(' ')` or `Numbers('\t')`) and projected onto the columns `cols`. */
module ContactWindow {
  import opened Errors
  import opened Text
  import opened Table

  function Min(a: int, b: int): int {
    if a <= b then a else b
  }

  /** Line `i` is read: the flag was set at index `7 + start` (which only happens when that index
      is not negative) and the loop has not yet broken out at index `57 + start`. */
  predicate InWindow(start: int, i: nat) {
    start >= -7 && 7 + start < i <= 57 + start
  }

  /** The lines the loop reads, in file order. */
  function Window(lines: seq<string>, start: int): seq<string> {
    if lines == [] then []
    else Window(lines[..|lines| - 1], start) + (if InWindow(start, |lines| - 1) then [lines[|lines| - 1]] else [])
  }

  /** The window is the slice of lines `8 + start` up to `57 + start`, cut at the end of the
      file, and empty when `start < -7`. */
  lemma {:induction false} WindowSlice(lines: seq<string>, start: int)
    ensures start < -7 ==> Window(lines, start) == []
    ensures start >= -7 ==> Window(lines, start) == lines[Min(|lines|, 8 + start)..Min(|lines|, 58 + start)]
    decreases |lines|
  {
    if lines != [] {
      var init := lines[..|lines| - 1];
      WindowSlice(init, start);
      if start >= -7 {
        var n := |lines| - 1;
        var lo := 8 + start;
        if InWindow(start, n) {
          assert Min(n, lo) == lo && Min(n, 58 + start) == n && Min(n + 1, lo) == lo && Min(n + 1, 58 + start) == n + 1;
          assert init[lo..n] == lines[lo..n];
          assert lines[lo..n + 1] == lines[lo..n] + [lines[n]];
        } else if n > 57 + start {
          assert Min(n, lo) == lo == Min(n + 1, lo) && Min(n, 58 + start) == 58 + start == Min(n + 1, 58 + start);
          assert init[lo..58 + start] == lines[lo..58 + start];
        } else {
          assert n < lo;
          assert Min(n, lo) == n && Min(n, 58 + start) == n;
          assert Min(n + 1, lo) == n + 1 && Min(n + 1, 58 + start) == n + 1;
        }
      }
    }
  }

  /** Lines past the window do not change it. */
  lemma WindowStops(lines: seq<string>, start: int, i: nat)
    requires i < |lines| && i >= 57 + start
    ensures Window(lines[..i + 1], start) == Window(lines, start)
  {
    WindowSlice(lines[..i + 1], start);
    WindowSlice(lines, start);
    if start >= -7 {
      assert lines[..i + 1][Min(i + 1, 8 + start)..Min(i + 1, 58 + start)] == lines[Min(|lines|, 8 + start)..Min(|lines|, 58 + start)];
    }
  }

  /** Reading fewer lines keeps a prefix of the window. */
  lemma WindowPrefix(lines: seq<string>, start: int, k: nat)
    requires k <= |lines|
    ensures Window(lines[..k], start) <= Window(lines, start)
  {
    WindowSlice(lines[..k], start);
    WindowSlice(lines, start);
  }

  /** The kept rows, each the line's numbers at positions `cols` (IndexError when a line is too
      short for one of them). */
  function ContactRows(lines: seq<string>, start: int, cols: seq<int>, parse: string -> seq<int>): Result<seq<seq<int>>> {
    SelectedRows(Parsed(Window(lines, start), parse), cols)
  }

  /** `np.transpose(contact_data)`: one row per requested column, one entry per kept line. */
  function ContactMatrix(lines: seq<string>, start: int, cols: seq<int>, parse: string -> seq<int>): (r: Result<seq<seq<int>>>)
    ensures r.Ok? ==> |r.value| == |cols| && forall c :: 0 <= c < |cols| ==> |r.value[c]| == |Window(lines, start)|
  {
    match ContactRows(lines, start, cols, parse)
    case Err(e) => Err(e)
    case Ok(rows) => Ok(Transpose(rows, |cols|))
  }

  lemma WindowStep(lines: seq<string>, start: int, i: nat)
    requires i < |lines|
    ensures Window(lines[..i + 1], start) == Window(lines[..i], start) + if InWindow(start, i) then [lines[i]] else []
  {
    assert lines[..i + 1][..i] == lines[..i];
  }

  /** Reading line `i` inside the window appends its projection to the rows. */
  lemma KeepStep(lines: seq<string>, start: int, cols: seq<int>, parse: string -> seq<int>, i: nat, rows: seq<seq<int>>)
    requires i < |lines| && InWindow(start, i) && ContactRows(lines[..i], start, cols, parse) == Ok(rows)
    requires Take(parse(lines[i]), cols).Ok?
    ensures ContactRows(lines[..i + 1], start, cols, parse) == Ok(rows + [Take(parse(lines[i]), cols).value])
  {
    WindowStep(lines, start, i);
    var prefix := Window(lines[..i], start);
    ParsedSnoc(prefix, lines[i], parse);
    SelectedRowsSnoc(Parsed(prefix, parse), parse(lines[i]), cols);
  }

  /** Reading line `i` outside the window leaves the rows as they are. */
  lemma SkipStep(lines: seq<string>, start: int, cols: seq<int>, parse: string -> seq<int>, i: nat)
    requires i < |lines| && !InWindow(start, i)
    ensures ContactRows(lines[..i + 1], start, cols, parse) == ContactRows(lines[..i], start, cols, parse)
  {
    WindowStep(lines, start, i);
    assert Window(lines[..i + 1], start) == Window(lines[..i], start);
  }

  /** Rows read from the whole file make the matrix. */
  lemma ContactMatrixOfRows(lines: seq<string>, start: int, cols: seq<int>, parse: string -> seq<int>, rows: seq<seq<int>>)
    requires ContactRows(lines, start, cols, parse) == Ok(rows)
    ensures forall s :: 0 <= s < |rows| ==> |rows[s]| == |cols|
    ensures ContactMatrix(lines, start, cols, parse) == Ok(Transpose(rows, |cols|))
  {
  }

  /** A line of the window too short for one of the columns fails the whole read. */
  lemma RowFails(lines: seq<string>, start: int, cols: seq<int>, parse: string -> seq<int>, i: nat)
    requires i < |lines| && InWindow(start, i)
    requires Take(parse(lines[i]), cols).Err?
    ensures ContactRows(lines, start, cols, parse) == Err(IndexError)
  {
    WindowPrefix(lines, start, i + 1);
    assert lines[..i + 1][..i] == lines[..i];
    var prefix := Window(lines[..i], start);
    var w := Window(lines, start);
    assert w[|prefix|] == lines[i];
    assert Parsed(w, parse)[|prefix|] == parse(lines[i]);
  }

  /** The line loop of the reader, with its flag and its `break`. */
  method ReadWindow(lines: seq<string>, start: int, cols: seq<int>, parse: string -> seq<int>) returns (r: Result<seq<seq<int>>>)
    ensures r == ContactMatrix(lines, start, cols, parse)
  {
    var readData := false;
    var rows: seq<seq<int>> := [];
    var i := 0;
    while i < |lines|
      invariant 0 <= i <= |lines|
      invariant i > 0 ==> i <= 57 + start
      invariant readData <==> start >= -7 && i > 7 + start
      invariant ContactRows(lines[..i], start, cols, parse) == Ok(rows)
    {
      if readData {
        var row := Take(parse(lines[i]), cols);
        if row.Err? {
          RowFails(lines, start, cols, parse, i);
          return Err(IndexError);
        }
        KeepStep(lines, start, cols, parse, i, rows);
        rows := rows + [row.value];
      } else {
        SkipStep(lines, start, cols, parse, i);
      }
      if i == 7 + start {
        readData := true;
      }
      if i >= 57 + start {
        WindowStops(lines, start, i);
        ContactMatrixOfRows(lines, start, cols, parse, rows);
        return Ok(Transpose(rows, |cols|));
      }
      i := i + 1;
    }
    assert lines[..i] == lines;
    ContactMatrixOfRows(lines, start, cols, parse, rows);
    return Ok(Transpose(rows, |cols|));
  }

  /** At most 50 rows are kept; exactly 50 when the file has at least `58 + start` lines and the
      flag can flip; none when `start < -7`. There is one matrix row per requested column. */
  lemma ContactMatrixShape(lines: seq<string>, start: int, cols: seq<int>, parse: string -> seq<int>)
    ensures ContactMatrix(lines, start, cols, parse).Ok? ==>
      var m := ContactMatrix(lines, start, cols, parse).value;
      && |m| == |cols|
      && forall c :: 0 <= c < |m| ==>
        && |m[c]| <= 50
        && (start >= -7 && |lines| >= 58 + start ==> |m[c]| == 50)
        && (start < -7 ==> |m[c]| == 0)
  {
    WindowSlice(lines, start);
  }

  /** Entry `s` of row `c` is the number at position `cols[c]` (Python indexing) of line
      `8 + start + s`, a line inside the window. */
  lemma ContactMatrixEntries(lines: seq<string>, start: int, cols: seq<int>, parse: string -> seq<int>, c: nat, s: nat)
    requires ContactMatrix(lines, start, cols, parse).Ok?
    requires c < |cols| && s < |ContactMatrix(lines, start, cols, parse).value[c]|
    ensures start >= -7 && 8 + start + s < |lines| && InWindow(start, 8 + start + s)
    ensures
      var row := parse(lines[8 + start + s]);
      PyIndex(|row|, cols[c]).Some? && ContactMatrix(lines, start, cols, parse).value[c][s] == row[PyIndex(|row|, cols[c]).value]
  {
    var w := Window(lines, start);
    var rows := Parsed(w, parse);
    ProjectedEntry(rows, cols, c, s);
    WindowAt(lines, start, s);
    assert rows[s] == parse(lines[8 + start + s]);
  }

  /** Position `s` of the window is line `8 + start + s`. */
  lemma WindowAt(lines: seq<string>, start: int, s: nat)
    requires s < |Window(lines, start)|
    ensures start >= -7 && 8 + start + s < |lines| && InWindow(start, 8 + start + s)
    ensures Window(lines, start)[s] == lines[8 + start + s]
  {
    WindowSlice(lines, start);
  }

  /** Every line inside the window is in it, at position `i - 8 - start`. */
  lemma WindowHas(lines: seq<string>, start: int, i: nat)
    requires i < |lines| && InWindow(start, i)
    ensures i - 8 - start < |Window(lines, start)| && Window(lines, start)[i - 8 - start] == lines[i]
  {
    WindowSlice(lines, start);
  }

  /** The read fails, with IndexError, exactly when some line of the window is too short for
      one of the columns. */
  lemma ContactMatrixFails(lines: seq<string>, start: int, cols: seq<int>, parse: string -> seq<int>)
    ensures ContactMatrix(lines, start, cols, parse).Err? <==>
      exists i :: 0 <= i < |lines| && InWindow(start, i) && Take(parse(lines[i]), cols).Err?
    ensures ContactMatrix(lines, start, cols, parse).Err? ==> ContactMatrix(lines, start, cols, parse).error == IndexError
  {
    var w := Window(lines, start);
    var rows := Parsed(w, parse);
    if SelectedRows(rows, cols).Err? {
      var s :| 0 <= s < |rows| && Take(rows[s], cols).Err?;
      WindowAt(lines, start, s);
      assert rows[s] == parse(lines[8 + start + s]);
    } else {
      forall i | 0 <= i < |lines| && InWindow(start, i)
        ensures Take(parse(lines[i]), cols).Ok?
      {
        WindowHas(lines, start, i);
        assert rows[i - 8 - start] == parse(lines[i]);
      }
    }
  }

  /** The header lines before the window contribute nothing. */
  lemma ContactMatrixIgnoresHeader(a: seq<string>, b: seq<string>, rest: seq<string>, start: int, cols: seq<int>, parse: string -> seq<int>)
    requires |a| == |b| && (start < -7 || |a| <= 8 + start)
    ensures ContactMatrix(a + rest, start, cols, parse) == ContactMatrix(b + rest, start, cols, parse)
  {
    WindowSlice(a + rest, start);
    WindowSlice(b + rest, start);
    if start >= -7 {
      var lo := Min(|a + rest|, 8 + start);
      var hi := Min(|a + rest|, 58 + start);
      assert forall k :: lo <= k < hi ==> (a + rest)[k] == rest[k - |a|] == (b + rest)[k];
      assert (a + rest)[lo..hi] == (b + rest)[lo..hi];
    }
  }
}

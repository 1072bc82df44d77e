/** `test.py`: the file-name label of the reader window and its two windowed readers, one for
    EP-system exports (comma-separated rows after a `[Data]` line) and one for CARTO exports
    (space-separated rows after the header at line index 3). */
module TestScript {
  import opened Errors
  import opened Text
  import opened Table
  import Simple

  /** `SAMPLES_COUNT` */
  const SamplesCount: nat := 10000

  /** `channel_count` of `get_dataEP`. */
  const EpChannels: nat := 28

  /** `channel_count` of `get_dataCarto`. */
  const CartoChannels: nat := 79

  /** The index of the last `c` in `s`. */
  function LastIndex(s: string, c: char): (r: Option<nat>)
    ensures r.None? ==> forall j :: 0 <= j < |s| ==> s[j] != c
    ensures r.Some? ==> r.value < |s| && s[r.value] == c
    ensures r.Some? ==> forall j :: r.value < j < |s| ==> s[j] != c
  {
    if s == [] then None
    else if s[|s| - 1] == c then Some(|s| - 1)
    else LastIndex(s[..|s| - 1], c)
  }

  /** The value of `pos` after the loop of `get_filename`: the index of the last `/`, 0 when
      there is none. */
  function SlashPos(path: string): nat {
    match LastIndex(path, '/')
    case None => 0
    case Some(p) => p
  }

  /** What `get_filename(filepath)` returns: the slice after `pos`, which Python cuts to the
      empty string for an empty path. */
  function FilenameAsWritten(path: string): (name: string)
    ensures |name| < |path| || path == []
  {
    if path == [] then [] else path[SlashPos(path) + 1..]
  }

  /** `get_filename(filepath)`: the character loop keeps the index of the last `/` seen in
      `pos`. */
  method GetFilename(path: string) returns (name: string)
    ensures name == FilenameAsWritten(path)
  {
    var pos := 0;
    var i := 0;
    while i < |path|
      invariant 0 <= i <= |path|
      invariant pos == SlashPos(path[..i])
    {
      assert path[..i + 1][..i] == path[..i];
      if path[i] == '/' {
        pos := i;
      }
      i := i + 1;
    }
    assert path[..i] == path;
    name := if pos + 1 <= |path| then path[pos + 1..] else [];
  }

  /** The base name of a path: its longest suffix without a `/`, which is the whole path or
      follows a `/`. */
  function BaseName(path: string): (name: string)
    ensures |name| <= |path| && name == path[|path| - |name|..]
    ensures '/' !in name
    ensures |name| == |path| || path[|path| - |name| - 1] == '/'
  {
    match LastIndex(path, '/')
    case None => path
    case Some(p) => path[p + 1..]
  }

  /** Only the base name is a `/`-free suffix of the path that is the whole path or follows a
      `/`. */
  lemma BaseNameUnique(path: string, name: string)
    requires |name| <= |path| && name == path[|path| - |name|..] && '/' !in name
    requires |name| == |path| || path[|path| - |name| - 1] == '/'
    ensures name == BaseName(path)
  {
  }

  /** As written, `get_filename` gives the base name of a path holding a `/` and of the empty
      path, and drops the first character of any other path. */
  lemma FilenameAsWrittenCases(path: string)
    ensures '/' in path || path == [] ==> FilenameAsWritten(path) == BaseName(path)
    ensures '/' !in path && path != [] ==> FilenameAsWritten(path) == path[1..] != BaseName(path)
  {
    if '/' !in path && path != [] {
      assert |path[1..]| < |path|;
    }
  }

  /** A bare file name loses its first character. */
  lemma FilenameWithoutDirectory()
    ensures FilenameAsWritten("a.txt") == ".txt"
    ensures BaseName("a.txt") == "a.txt"
  {
    FilenameAsWrittenCases("a.txt");
    assert "a.txt"[1..] == ".txt";
  }

  /** The index of the last line of `lines` that `marker` accepts. */
  function LastMarker(lines: seq<string>, marker: string -> bool): (r: Option<nat>)
    ensures r.Some? ==> r.value < |lines| && marker(lines[r.value])
    ensures r.Some? ==> forall j :: r.value < j < |lines| ==> !marker(lines[j])
    ensures r.None? ==> forall j :: 0 <= j < |lines| ==> !marker(lines[j])
  {
    if lines == [] then None
    else if marker(lines[|lines| - 1]) then Some(|lines| - 1)
    else LastMarker(lines[..|lines| - 1], marker)
  }

  /** Whether the line after `prefix` is read: `data` is set and the line lies fewer than
      `window` lines after `start`, the last marker line. */
  predicate InWindow(prefix: seq<string>, marker: string -> bool, window: nat) {
    match LastMarker(prefix, marker)
    case None => false
    case Some(start) => |prefix| - start < window
  }

  /** The lines the loop of `get_dataEP` reads, in file order. The test comes before the
      marker check, so a marker line is never read by its own pass, and a later marker line
      inside a window is read as data before it restarts the window. */
  function WindowLines(lines: seq<string>, marker: string -> bool, window: nat): (r: seq<string>)
    ensures |r| <= |lines|
  {
    if lines == [] then []
    else
      var n := |lines| - 1;
      WindowLines(lines[..n], marker, window) + if InWindow(lines[..n], marker, window) then [lines[n]] else []
  }

  /** `get_dataEP`'s matrix: every read line parsed by `parse` (numpy's comma reader,
      `Numbers(',')`) is appended to a 28-column array, then transposed. */
  function EpMatrix(lines: seq<string>, marker: string -> bool, parse: string -> seq<int>): (r: Result<seq<seq<int>>>)
    ensures r.Err? ==> r.error == ValueError
    ensures r.Ok? ==> |r.value| == EpChannels
    ensures r.Ok? ==> forall c :: 0 <= c < EpChannels ==> |r.value[c]| == |WindowLines(lines, marker, SamplesCount)|
  {
    match FixedWidthRows(Parsed(WindowLines(lines, marker, SamplesCount), parse), EpChannels)
    case Err(e) => Err(e)
    case Ok(rows) => Ok(Transpose(rows, EpChannels))
  }

  /** One more line: it is read when the window is open, and it becomes `start` when it is a
      marker. */
  lemma WindowStep(lines: seq<string>, i: nat, marker: string -> bool, window: nat)
    requires i < |lines|
    ensures WindowLines(lines[..i + 1], marker, window) ==
      WindowLines(lines[..i], marker, window) + if InWindow(lines[..i], marker, window) then [lines[i]] else []
    ensures LastMarker(lines[..i + 1], marker) == if marker(lines[i]) then Some(i) else LastMarker(lines[..i], marker)
  {
    assert lines[..i + 1][..i] == lines[..i];
  }

  /** The lines read from a prefix are the first lines read from the whole file. */
  lemma {:induction false} WindowLinesPrefix(lines: seq<string>, k: nat, marker: string -> bool, window: nat)
    requires k <= |lines|
    ensures |WindowLines(lines[..k], marker, window)| <= |WindowLines(lines, marker, window)|
    ensures WindowLines(lines[..k], marker, window) == WindowLines(lines, marker, window)[..|WindowLines(lines[..k], marker, window)|]
    decreases |lines|
  {
    if k == |lines| {
      assert lines[..k] == lines;
    } else {
      var init := lines[..|lines| - 1];
      assert init[..k] == lines[..k];
      WindowLinesPrefix(init, k, marker, window);
    }
  }

  /** A line of the wrong width read at pass `i` fails the whole read. */
  lemma EpBadRow(lines: seq<string>, i: nat, marker: string -> bool, parse: string -> seq<int>)
    requires i < |lines| && InWindow(lines[..i], marker, SamplesCount) && |parse(lines[i])| != EpChannels
    ensures EpMatrix(lines, marker, parse) == Err(ValueError)
  {
    WindowStep(lines, i, marker, SamplesCount);
    WindowLinesPrefix(lines, i + 1, marker, SamplesCount);
    var all := WindowLines(lines, marker, SamplesCount);
    var k := |WindowLines(lines[..i], marker, SamplesCount)|;
    assert WindowLines(lines[..i + 1], marker, SamplesCount)[k] == lines[i];
    assert all[k] == lines[i];
    FixedWidthRowsBadRow(Parsed(all, parse), EpChannels, k);
  }

  /** The loop of `get_dataEP` with its `data` flag and `start` index; `marker` is the
      `[Data]` test and `parse` numpy's reader for commas. */
  method ReadEpWindow(lines: seq<string>, marker: string -> bool, parse: string -> seq<int>) returns (r: Result<seq<seq<int>>>)
    ensures r == EpMatrix(lines, marker, parse)
  {
    var data := false;
    var start := 0;
    var rows: seq<seq<int>> := [];
    var i := 0;
    while i < |lines|
      invariant 0 <= i <= |lines|
      invariant data <==> LastMarker(lines[..i], marker).Some?
      invariant data ==> start == LastMarker(lines[..i], marker).value
      invariant rows == Parsed(WindowLines(lines[..i], marker, SamplesCount), parse)
      invariant forall s :: 0 <= s < |rows| ==> |rows[s]| == EpChannels
    {
      WindowStep(lines, i, marker, SamplesCount);
      ParsedSnoc(WindowLines(lines[..i], marker, SamplesCount), lines[i], parse);
      if data && i - start < SamplesCount {
        var newline := parse(lines[i]);
        if |newline| != EpChannels {
          EpBadRow(lines, i, marker, parse);
          return Err(ValueError);
        }
        rows := rows + [newline];
      }
      if marker(lines[i]) {
        start := i;
        data := true;
      }
      i := i + 1;
    }
    assert lines[..i] == lines;
    return Ok(Transpose(rows, EpChannels));
  }

  /** `get_dataEP(filename)` on the lines of the file. */
  method GetDataEP(lines: seq<string>) returns (r: Result<seq<seq<int>>>)
    ensures r == EpMatrix(lines, Simple.IsMarker, Numbers(','))
  {
    r := ReadEpWindow(lines, Simple.IsMarker, Numbers(','));
  }

  /** With one marker line, at index `d`, the lines read are the at most `window - 1` lines
      after it. */
  lemma {:induction false} WindowLinesSingleMarker(lines: seq<string>, d: nat, marker: string -> bool, window: nat)
    requires d < |lines| && marker(lines[d])
    requires forall j :: 0 <= j < |lines| && j != d ==> !marker(lines[j])
    ensures WindowLines(lines, marker, window) == lines[d + 1..if window == 0 then d + 1 else Min(|lines|, d + window)]
    decreases |lines|
  {
    var n := |lines| - 1;
    var init := lines[..n];
    if n == d {
      WindowLinesBeforeMarker(init, marker, window);
    } else {
      WindowLinesSingleMarker(init, d, marker, window);
      assert LastMarker(init, marker) == Some(d) by {
        LastMarkerAt(init, d, marker);
      }
    }
  }

  /** Without a marker line nothing is read. */
  lemma {:induction false} WindowLinesBeforeMarker(lines: seq<string>, marker: string -> bool, window: nat)
    requires forall j :: 0 <= j < |lines| ==> !marker(lines[j])
    ensures WindowLines(lines, marker, window) == []
    decreases |lines|
  {
    if lines != [] {
      WindowLinesBeforeMarker(lines[..|lines| - 1], marker, window);
    }
  }

  /** A marker line followed by none is the last one. */
  lemma LastMarkerAt(lines: seq<string>, d: nat, marker: string -> bool)
    requires d < |lines| && marker(lines[d])
    requires forall j :: d < j < |lines| ==> !marker(lines[j])
    ensures LastMarker(lines, marker) == Some(d)
  {
  }

  function Min(a: nat, b: nat): nat {
    if a < b then a else b
  }

  /** An EP export with one `[Data]` line gives at most 9999 samples per channel: entry `s` of
      channel `c` is number `c` of line `d + 1 + s`. */
  lemma EpSingleMarkerEntries(lines: seq<string>, d: nat, marker: string -> bool, parse: string -> seq<int>, c: nat, s: nat)
    requires d < |lines| && marker(lines[d])
    requires forall j :: 0 <= j < |lines| && j != d ==> !marker(lines[j])
    requires EpMatrix(lines, marker, parse).Ok? && c < EpChannels
    ensures |EpMatrix(lines, marker, parse).value[c]| == Min(|lines|, d + SamplesCount) - (d + 1) <= SamplesCount - 1
    ensures s < |EpMatrix(lines, marker, parse).value[c]| ==>
      d + 1 + s < |lines| && c < |parse(lines[d + 1 + s])| && EpMatrix(lines, marker, parse).value[c][s] == parse(lines[d + 1 + s])[c]
  {
    WindowLinesSingleMarker(lines, d, marker, SamplesCount);
    if s < |EpMatrix(lines, marker, parse).value[c]| {
      ParsedFromAt(lines[..Min(|lines|, d + SamplesCount)], d + 1, d + 1 + s, parse);
      assert lines[..Min(|lines|, d + SamplesCount)][d + 1..] == lines[d + 1..Min(|lines|, d + SamplesCount)];
    }
  }

  /** The lines `get_dataCarto` reads: from index 4, after the header, while the index is at
      most `SAMPLES_COUNT` past the header, so up to line index 10003. */
  function CartoLines(lines: seq<string>): (r: seq<string>)
    ensures |r| <= SamplesCount
  {
    if |lines| <= 4 then [] else lines[4..Min(|lines|, 4 + SamplesCount)]
  }

  /** `get_dataCarto`'s matrix: every read line parsed by `parse` (numpy's reader for spaces,
      `Numbers(' ')`) is appended to a 79-column array, then transposed. */
  function CartoMatrix(lines: seq<string>, parse: string -> seq<int>): (r: Result<seq<seq<int>>>)
    ensures r.Err? ==> r.error == ValueError
    ensures r.Ok? ==> |r.value| == CartoChannels
    ensures r.Ok? ==> forall c :: 0 <= c < CartoChannels ==> |r.value[c]| == |CartoLines(lines)|
  {
    match FixedWidthRows(Parsed(CartoLines(lines), parse), CartoChannels)
    case Err(e) => Err(e)
    case Ok(rows) => Ok(Transpose(rows, CartoChannels))
  }

  /** The global `channel_names` after a read: the raw tokens of line 3 when the file has one,
      the earlier value otherwise. */
  function CartoNames(lines: seq<string>, before: seq<string>): seq<string> {
    if |lines| > 3 then Words(lines[3]) else before
  }

  /** The lines read before pass `i` are the lines between index 4 and `i`, up to the window's
      end. */
  lemma CartoLinesPrefix(lines: seq<string>, i: nat)
    requires i <= |lines|
    ensures CartoLines(lines[..i]) == lines[Min(i, 4)..Min(i, 4 + SamplesCount)]
  {
  }

  /** A read line of the wrong width fails the whole read. */
  lemma CartoBadRow(lines: seq<string>, i: nat, parse: string -> seq<int>)
    requires 4 <= i < |lines| && i - 3 <= SamplesCount && |parse(lines[i])| != CartoChannels
    ensures CartoMatrix(lines, parse) == Err(ValueError)
  {
    assert CartoLines(lines)[i - 4] == lines[i];
    ParsedFromAt(CartoLines(lines), 0, i - 4, parse);
    assert CartoLines(lines)[0..] == CartoLines(lines);
    FixedWidthRowsBadRow(Parsed(CartoLines(lines), parse), CartoChannels, i - 4);
  }

  /** The loop of `get_dataCarto` with its `data` flag and `start` index; `parse` is numpy's
      reader for spaces. The header tokens are stored in `channelNames` when line 3 is
      passed, before any data line can fail. */
  method ReadCartoWindow(lines: seq<string>, parse: string -> seq<int>, before: seq<string>) returns (r: Result<seq<seq<int>>>, channelNames: seq<string>)
    ensures r == CartoMatrix(lines, parse)
    ensures channelNames == CartoNames(lines, before)
  {
    channelNames := before;
    var data := false;
    var start := 0;
    var rows: seq<seq<int>> := [];
    var i := 0;
    while i < |lines|
      invariant 0 <= i <= |lines|
      invariant data <==> i > 3
      invariant data ==> start == 3
      invariant channelNames == CartoNames(lines[..i], before)
      invariant rows == Parsed(CartoLines(lines[..i]), parse)
      invariant forall s :: 0 <= s < |rows| ==> |rows[s]| == CartoChannels
    {
      CartoLinesPrefix(lines, i);
      CartoLinesPrefix(lines, i + 1);
      if data && i - start <= SamplesCount {
        var newline := parse(lines[i]);
        if |newline| != CartoChannels {
          CartoBadRow(lines, i, parse);
          if |lines| > 3 {
            assert lines[..i][3] == lines[3];
          }
          channelNames := CartoNames(lines, before);
          return Err(ValueError), channelNames;
        }
        assert lines[4..i + 1] == lines[4..i] + [lines[i]];
        ParsedSnoc(lines[4..i], lines[i], parse);
        rows := rows + [newline];
      }
      if i == 3 {
        start := i;
        data := true;
        channelNames := Words(lines[i]);
      }
      assert lines[..i + 1][..i] == lines[..i];
      i := i + 1;
    }
    assert lines[..i] == lines;
    return Ok(Transpose(rows, CartoChannels)), channelNames;
  }

  /** `get_dataCarto(filename)` on the lines of the file; `channelNames` is the global
      `channel_names` before and after the call. */
  method GetDataCarto(lines: seq<string>, before: seq<string>) returns (r: Result<seq<seq<int>>>, channelNames: seq<string>)
    ensures r == CartoMatrix(lines, Numbers(' '))
    ensures channelNames == CartoNames(lines, before)
  {
    r, channelNames := ReadCartoWindow(lines, Numbers(' '), before);
  }

  /** A CARTO export gives at most 10000 samples per channel, one more than an EP export:
      entry `s` of channel `c` is number `c` of line `4 + s`. */
  lemma CartoEntries(lines: seq<string>, parse: string -> seq<int>, c: nat, s: nat)
    requires CartoMatrix(lines, parse).Ok? && c < CartoChannels
    ensures |CartoMatrix(lines, parse).value[c]| == if |lines| <= 4 then 0 else Min(|lines|, 4 + SamplesCount) - 4
    ensures s < |CartoMatrix(lines, parse).value[c]| ==>
      4 + s < |lines| && c < |parse(lines[4 + s])| && CartoMatrix(lines, parse).value[c][s] == parse(lines[4 + s])[c]
  {
    if s < |CartoMatrix(lines, parse).value[c]| {
      ParsedFromAt(CartoLines(lines), 0, s, parse);
      assert CartoLines(lines)[0..] == CartoLines(lines);
    }
  }
}

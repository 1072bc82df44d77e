/** `simple.py`: `get_channels`, the reader of a `[Header]`/`[Data]` export. The header lines
    fill a dictionary of fields and per-channel records; the data lines after the `[Data]`
    marker become the rows of a channel matrix. */
module Simple {
  import opened Errors
  import opened Text
  import opened Table

  /** A value stored in the header: text, or a number when `int()` accepted it. */
  datatype Scalar = Text(s: string) | Number(n: int)

  /** A channel record of `channel_info`. */
  type Record = map<string, Scalar>

  /** A header entry: a field, or the list of channel records. */
  datatype Entry = Field(value: Scalar) | ChannelInfo(records: seq<Record>)

  type Header = map<string, Entry>

  /** The record of a channel: its number, the other fields empty. */
  function ChannelRecord(nr: Scalar): (r: Record)
    ensures r.Keys == {"channel_nr", "label", "range", "low", "high", "sample_rate"}
    ensures r["channel_nr"] == nr
  {
    map["channel_nr" := nr, "label" := Text(""), "range" := Text(""), "low" := Text(""), "high" := Text(""), "sample_rate" := Text("")]
  }

  /** The header before any line is read: twelve empty fields and one empty channel record. */
  function InitialHeader(): (h: Header)
    ensures "channel_info" in h && h["channel_info"] == ChannelInfo([ChannelRecord(Text(""))])
    ensures "channels_exported" in h && h["channels_exported"] == Field(Text(""))
  {
    map[
      "file_type" := Field(Text("")), "version" := Field(Text("")),
      "channels_exported" := Field(Text("")), "samples_per_channel" := Field(Text("")),
      "start_time" := Field(Text("")), "end_time" := Field(Text("")),
      "ch_info_pointer" := Field(Text("")), "stamp_data" := Field(Text("")),
      "mux_format" := Field(Text("")), "mux_block_size" := Field(Text("")),
      "data_format" := Field(Text("")), "sample_rate" := Field(Text("")),
      "channel_info" := ChannelInfo([ChannelRecord(Text(""))])]
  }

  /** The state of the header loop: the dictionary and `current_channel`. */
  datatype HeaderState = HeaderState(header: Header, current: int)

  /** Every key of the initial header is still there: keys are only ever added. */
  predicate HasInitialKeys(h: Header) {
    InitialHeader().Keys <= h.Keys
  }

  /** `line.strip() == "[Data]"` */
  predicate IsMarker(line: string) {
    Strip(line) == "[Data]"
  }

  /** The key of a `key: value` line: stripped, lower-cased, spaces turned into `_`, dots
      removed. */
  function NormalisedKey(k: string): string {
    RemoveChar(ReplaceChar(Lower(Strip(k)), ' ', '_'), '.')
  }

  /** The value of a `key: value` line: stripped, spaces turned into `_`, dots removed, then a
      number when `int()` accepts it. */
  function NormalisedValue(v: string): (r: Scalar)
    ensures var t := RemoveChar(ReplaceChar(Strip(v), ' ', '_'), '.');
      (r.Number? <==> PyInt(t).Some?) && (r.Number? ==> r.n == PyInt(t).value) && (r.Text? ==> r.s == t)
  {
    var t := RemoveChar(ReplaceChar(Strip(v), ' ', '_'), '.');
    match PyInt(t)
    case Some(n) => Number(n)
    case None => Text(t)
  }

  /** A normalised key has no space, no dot and no upper-case letter. */
  lemma NormalisedKeyShape(k: string)
    ensures forall c <- NormalisedKey(k) :: c != ' ' && c != '.' && !('A' <= c <= 'Z')
  {
    var lowered := Lower(Strip(k));
    var replaced := ReplaceChar(lowered, ' ', '_');
    forall c | c in replaced ensures c != ' ' && !('A' <= c <= 'Z') {
      var i :| 0 <= i < |replaced| && replaced[i] == c;
      assert lowered[i] == Lower(Strip(k))[i];
    }
  }

  /** `header["channel_info"].append(dict(channel_nr=current_channel, ...))`: KeyError without
      the key, AttributeError when a `channel_info:` line has replaced the list by a value. */
  function AppendChannel(h: Header, nr: int): (r: Result<Header>)
    ensures r.Err? <==> "channel_info" !in h || h["channel_info"].Field?
    ensures r.Err? ==> r.error == if "channel_info" in h then AttributeError else KeyError
    ensures r.Ok? ==> r.value.Keys == h.Keys && (forall key <- h :: key != "channel_info" ==> r.value[key] == h[key])
    ensures r.Ok? ==> r.value["channel_info"] == ChannelInfo(h["channel_info"].records + [ChannelRecord(Number(nr))])
  {
    if "channel_info" !in h then Err(KeyError) else
    match h["channel_info"]
    case ChannelInfo(records) => Ok(h["channel_info" := ChannelInfo(records + [ChannelRecord(Number(nr))])])
    case Field(_) => Err(AttributeError)
  }

  /** `header["channel_info"][current_channel][var] = val`, with Python's negative indices:
      KeyError without the key, IndexError outside the list (or outside a text that replaced it),
      TypeError when the entry is a value that does not support item assignment. */
  function StoreInChannel(h: Header, current: int, key: string, value: Scalar): (r: Result<Header>)
    ensures r.Ok? <==> "channel_info" in h && h["channel_info"].ChannelInfo? && PyIndex(|h["channel_info"].records|, current).Some?
    ensures r.Ok? ==>
      var records := h["channel_info"].records;
      var k := PyIndex(|records|, current).value;
      r.value == h["channel_info" := ChannelInfo(records[k := records[k][key := value]])]
    ensures r.Err? ==> (r.error == KeyError <==> "channel_info" !in h)
    ensures r.Err? ==> r.error in {KeyError, IndexError, TypeError}
  {
    if "channel_info" !in h then Err(KeyError) else
    match h["channel_info"]
    case ChannelInfo(records) =>
      (match PyIndex(|records|, current)
       case None => Err(IndexError)
       case Some(k) => Ok(h["channel_info" := ChannelInfo(records[k := records[k][key := value]])]))
    case Field(Text(s)) => if PyIndex(|s|, current).None? then Err(IndexError) else Err(TypeError)
    case Field(Number(_)) => Err(TypeError)
  }

  /** One pass of the header loop over a line that is not the `[Data]` marker. */
  function HeaderStep(st: HeaderState, line: string): (r: Result<HeaderState>)
    ensures r.Ok? ==> st.header.Keys <= r.value.header.Keys
    ensures r.Err? && r.error == KeyError ==> "channel_info" !in st.header
  {
    var t := Strip(line);
    if t == "[Header]" || t == "" then Ok(st)
    else if StartsWith(line, "Data Format") then
      Ok(st.(header := st.header["data_format" := Field(Text(Strip(From(line, 12))))]))
    else if StartsWith(line, "Channel #") then
      match PyInt(Strip(From(line, 10)))
      case None => Err(ValueError)
      case Some(nr) =>
        match AppendChannel(st.header, nr)
        case Err(e) => Err(e)
        case Ok(h) => Ok(HeaderState(h, nr))
    else
      var parts := SplitOnce(line, ':');
      if |parts| < 2 then Err(IndexError)
      else
        var key := NormalisedKey(parts[0]);
        var value := NormalisedValue(parts[1]);
        if st.current == 0 then Ok(st.(header := st.header[key := Field(value)]))
        else
          match StoreInChannel(st.header, st.current, key, value)
          case Err(e) => Err(e)
          case Ok(h) => Ok(st.(header := h))
  }

  /** What one header line does: blank and `[Header]` lines change nothing, a `Data Format`
      line sets `data_format` to the rest of the line, a `Channel #` line starts a new channel
      record (ValueError when the number is not an integer, AttributeError when `channel_info`
      was overwritten), and any other line needs a `:` (IndexError otherwise) and stores its
      normalised value under its normalised key, in the header before the first channel. */
  lemma HeaderStepCases(st: HeaderState, line: string)
    requires HasInitialKeys(st.header)
    ensures var r := HeaderStep(st, line);
      && (Strip(line) in {"[Header]", ""} ==> r == Ok(st))
      && (Strip(line) !in {"[Header]", ""} && StartsWith(line, "Data Format") ==>
          r == Ok(st.(header := st.header["data_format" := Field(Text(Strip(From(line, 12))))])))
      && (Strip(line) !in {"[Header]", ""} && !StartsWith(line, "Data Format") && StartsWith(line, "Channel #") ==>
          match PyInt(Strip(From(line, 10)))
          case None => r == Err(ValueError)
          case Some(nr) => (r.Ok? <==> st.header["channel_info"].ChannelInfo?) && (r.Err? ==> r.error == AttributeError) && (r.Ok? ==> r.value.current == nr))
      && (Strip(line) !in {"[Header]", ""} && !StartsWith(line, "Data Format") && !StartsWith(line, "Channel #") ==>
          && (':' !in line ==> r == Err(IndexError))
          && (':' in line && st.current == 0 ==>
              r == Ok(st.(header := st.header[NormalisedKey(SplitOnce(line, ':')[0]) := Field(NormalisedValue(SplitOnce(line, ':')[1]))])))
          && (r.Ok? ==> r.value.current == st.current))
  {
  }

  /** The header loop over lines none of which is the marker, front to back, with the pass
      over one line as a parameter (`HeaderStep` in `get_channels`). */
  function HeaderFold(lines: seq<string>, step: (HeaderState, string) -> Result<HeaderState>): Result<HeaderState> {
    if lines == [] then Ok(HeaderState(InitialHeader(), 0))
    else
      match HeaderFold(lines[..|lines| - 1], step)
      case Err(e) => Err(e)
      case Ok(st) => step(st, lines[|lines| - 1])
  }

  /** The header loop keeps every initial key, so the dictionary lookups of `get_channels` never
      raise KeyError. */
  lemma {:induction false} HeaderFoldKeys(lines: seq<string>)
    ensures var r := HeaderFold(lines, HeaderStep);
      (r.Ok? ==> HasInitialKeys(r.value.header)) && (r.Err? ==> r.error != KeyError)
    decreases |lines|
  {
    if lines != [] {
      HeaderFoldKeys(lines[..|lines| - 1]);
    }
  }

  /** The index of the first `[Data]` marker. */
  function MarkerIndex(lines: seq<string>, marker: string -> bool): (r: Option<nat>)
    ensures r.None? <==> forall i :: 0 <= i < |lines| ==> !marker(lines[i])
    ensures r.Some? ==> r.value < |lines| && marker(lines[r.value]) && forall i :: 0 <= i < r.value ==> !marker(lines[i])
  {
    if lines == [] then None
    else if marker(lines[0]) then Some(0)
    else match MarkerIndex(lines[1..], marker)
      case None => None
      case Some(k) => Some(k + 1)
  }

  /** The lines the header loop reads: everything before the first marker. */
  function HeaderLines(lines: seq<string>, marker: string -> bool): (r: seq<string>)
    ensures |r| <= |lines| && r == lines[..|r|] && forall i :: 0 <= i < |r| ==> !marker(r[i])
    ensures |r| < |lines| ==> marker(lines[|r|])
  {
    match MarkerIndex(lines, marker)
    case None => lines
    case Some(d) => lines[..d]
  }

  /** The header `get_channels` returns, with the final `current_channel`. */
  function ReadHeader(lines: seq<string>): Result<HeaderState> {
    HeaderFold(HeaderLines(lines, IsMarker), HeaderStep)
  }

  /** Lines after the first marker do not reach the header loop. */
  lemma HeaderLinesStopAtMarker(lines: seq<string>, rest: seq<string>, marker: string -> bool)
    requires MarkerIndex(lines, marker).Some?
    ensures HeaderLines(lines + rest, marker) == HeaderLines(lines, marker)
  {
    var d := MarkerIndex(lines, marker).value;
    assert (lines + rest)[..|lines|] == lines;
    MarkerOfPrefix(lines + rest, |lines|, marker);
    assert (lines + rest)[..d] == lines[..d];
  }

  /** A line that every pass leaves unchanged can be dropped from the header part. */
  lemma {:induction false} HeaderFoldSkips(a: seq<string>, skipped: string, b: seq<string>, step: (HeaderState, string) -> Result<HeaderState>)
    requires forall st :: step(st, skipped) == Ok(st)
    ensures HeaderFold(a + [skipped] + b, step) == HeaderFold(a + b, step)
    decreases |b|
  {
    if b == [] {
      assert (a + [skipped])[..|a|] == a;
      assert a + [skipped] + b == a + [skipped];
      assert a + b == a;
    } else {
      var n := |b| - 1;
      HeaderFoldSkips(a, skipped, b[..n], step);
      assert (a + [skipped] + b)[..|a| + 1 + n] == a + [skipped] + b[..n];
      assert (a + b)[..|a| + n] == a + b[..n];
      assert (a + [skipped] + b)[|a| + 1 + n] == b[n] == (a + b)[|a| + n];
    }
  }

  /** Blank lines and `[Header]` lines can be dropped from the header part. */
  lemma BlankLinesSkipped(a: seq<string>, skipped: string, b: seq<string>)
    requires Strip(skipped) in {"[Header]", ""}
    ensures HeaderFold(a + [skipped] + b, HeaderStep) == HeaderFold(a + b, HeaderStep)
  {
    forall st: HeaderState ensures HeaderStep(st, skipped) == Ok(st) {
    }
    HeaderFoldSkips(a, skipped, b, HeaderStep);
  }

  /** The number of columns of the channel matrix: `np.empty((0, n), int)` needs a
      non-negative number (ValueError when negative, TypeError when not a number, KeyError
      without the key). */
  function ChannelCount(h: Header): (r: Result<nat>)
    ensures r.Ok? <==> "channels_exported" in h && h["channels_exported"].Field? && h["channels_exported"].value.Number? && h["channels_exported"].value.n >= 0
    ensures r.Ok? ==> r.value == h["channels_exported"].value.n
    ensures r.Err? ==> r.error == (if "channels_exported" !in h then KeyError
      else if h["channels_exported"].Field? && h["channels_exported"].value.Number? then ValueError else TypeError)
  {
    if "channels_exported" !in h then Err(KeyError) else
    match h["channels_exported"]
    case Field(Number(n)) => if n >= 0 then Ok(n) else Err(ValueError)
    case Field(Text(_)) => Err(TypeError)
    case ChannelInfo(_) => Err(TypeError)
  }

  /** The data loop breaks after a row read at a line index above this one. */
  const LastUnbrokenIndex: nat := 15000

  /** Where the data loop stands before a line: no marker seen yet (`count` is false), reading
      rows, or broken out. */
  datatype Phase = Before | Counting | Stopped

  /** The data loop after some lines: its phase and the lines it has turned into rows. */
  datatype Scan = Scan(phase: Phase, rows: seq<string>)

  /** One pass of the data loop over the line at `index`: a marker sets `count` and is skipped
      with `continue`, a line before the first marker is ignored, any other line is a row, and
      the loop breaks after a row at an index above 15000. */
  function ScanStep(sc: Scan, index: nat, line: string, marker: string -> bool): (r: Scan)
    ensures r.rows == sc.rows || (sc.phase == Counting && !marker(line) && r.rows == sc.rows + [line])
  {
    match sc.phase
    case Before => if marker(line) then Scan(Counting, sc.rows) else sc
    case Counting =>
      if marker(line) then sc
      else Scan(if index > LastUnbrokenIndex then Stopped else Counting, sc.rows + [line])
    case Stopped => sc
  }

  /** The data loop over the lines `prefix`, front to back. */
  function ScanOf(prefix: seq<string>, marker: string -> bool): (r: Scan)
    ensures |r.rows| <= |prefix|
  {
    if prefix == [] then Scan(Before, [])
    else ScanStep(ScanOf(prefix[..|prefix| - 1], marker), |prefix| - 1, prefix[|prefix| - 1], marker)
  }

  /** The lines the data loop turns into rows, in file order. */
  function DataLines(lines: seq<string>, marker: string -> bool): seq<string> {
    ScanOf(lines, marker).rows
  }

  /** The channel matrix: each data row is the line read by `parse` (its comma-separated
      numbers, `Numbers(',')`); `np.append` raises ValueError when a row does not have `n`
      numbers. */
  function ChannelMatrix(lines: seq<string>, n: nat, marker: string -> bool, parse: string -> seq<int>): (r: Result<seq<seq<int>>>)
    ensures r.Err? ==> r.error == ValueError
    ensures r.Ok? ==> |r.value| == n && forall c :: 0 <= c < n ==> |r.value[c]| == |DataLines(lines, marker)|
  {
    match FixedWidthRows(Parsed(DataLines(lines, marker), parse), n)
    case Err(e) => Err(e)
    case Ok(rows) => Ok(Transpose(rows, n))
  }

  /** `get_channels(filename)`: the header and the transposed channel matrix. */
  function Channels(lines: seq<string>): Result<(Header, seq<seq<int>>)> {
    match ReadHeader(lines)
    case Err(e) => Err(e)
    case Ok(st) =>
      match ChannelCount(st.header)
      case Err(e) => Err(e)
      case Ok(n) =>
        match ChannelMatrix(lines, n, IsMarker, Numbers(','))
        case Err(e) => Err(e)
        case Ok(m) => Ok((st.header, m))
  }

  /** The first marker of a prefix that has one is the first marker of the whole. */
  lemma MarkerOfPrefix(lines: seq<string>, k: nat, marker: string -> bool)
    requires k <= |lines| && MarkerIndex(lines[..k], marker).Some?
    ensures MarkerIndex(lines, marker) == MarkerIndex(lines[..k], marker)
  {
    var d := MarkerIndex(lines[..k], marker).value;
    assert lines[..k][d] == lines[d];
    assert MarkerIndex(lines, marker).Some?;
    var v := MarkerIndex(lines, marker).value;
    assert v <= d;
    assert lines[..k][v] == lines[v];
    assert v == d;
  }

  /** Reading line `i` is one more pass of the loop. */
  lemma ScanSnoc(lines: seq<string>, i: nat, marker: string -> bool)
    requires i < |lines|
    ensures ScanOf(lines[..i + 1], marker) == ScanStep(ScanOf(lines[..i], marker), i, lines[i], marker)
  {
    assert lines[..i + 1][..i] == lines[..i];
  }

  /** The loop is still waiting for `[Data]` exactly when no line so far is a marker, and
      then it has read no row. */
  lemma {:induction false} PhaseBefore(lines: seq<string>, marker: string -> bool)
    ensures ScanOf(lines, marker).phase == Before <==> MarkerIndex(lines, marker).None?
    ensures ScanOf(lines, marker).phase == Before ==> DataLines(lines, marker) == []
    decreases |lines|
  {
    if lines != [] {
      var m := |lines| - 1;
      var init := lines[..m];
      PhaseBefore(init, marker);
      if MarkerIndex(init, marker).Some? {
        MarkerOfPrefix(lines, m, marker);
      } else {
        assert forall i :: 0 <= i < m ==> init[i] == lines[i];
      }
    }
  }

  /** At most 15001 rows are read, and none at index 0. */
  lemma {:induction false} DataLinesBound(lines: seq<string>, marker: string -> bool)
    ensures |DataLines(lines, marker)| <= if lines == [] then 0 else |lines| - 1
    ensures |DataLines(lines, marker)| <= LastUnbrokenIndex + 1
    ensures ScanOf(lines, marker).phase == Counting && |lines| > LastUnbrokenIndex + 1 ==> |DataLines(lines, marker)| <= LastUnbrokenIndex
    decreases |lines|
  {
    if lines != [] {
      var init := lines[..|lines| - 1];
      DataLinesBound(init, marker);
      PhaseBefore(init, marker);
    }
  }

  /** The first line index past the rows when `[Data]` is at index `d` and is the only marker. */
  function EndOfData(d: nat): nat {
    if d > LastUnbrokenIndex then d + 2 else LastUnbrokenIndex + 2
  }

  /** The loop after the lines up to `k` when the single marker is at index `d`: counting up to
      line index 15001 (up to the line after the marker when the marker itself lies beyond
      15000), broken out after it, with the lines after the marker up to that point as rows. */
  function SingleMarkerScan(lines: seq<string>, d: nat, k: nat): Scan
    requires d < k <= |lines|
  {
    Scan(if k >= EndOfData(d) then Stopped else Counting, lines[d + 1..if k <= EndOfData(d) then k else EndOfData(d)])
  }

  /** With a single marker at index `d`, the rows are the lines after it up to index 15001 (up to
      the line after the marker when the marker itself lies beyond 15000). */
  lemma {:induction false} DataLinesSingleMarker(lines: seq<string>, d: nat, marker: string -> bool)
    requires MarkerIndex(lines, marker) == Some(d)
    requires forall j :: d < j < |lines| ==> !marker(lines[j])
    ensures ScanOf(lines, marker) == SingleMarkerScan(lines, d, |lines|)
    decreases |lines|
  {
    var m := |lines| - 1;
    var init := lines[..m];
    if m == d {
      assert MarkerIndex(init, marker).None? by {
        assert forall i :: 0 <= i < m ==> init[i] == lines[i];
      }
      PhaseBefore(init, marker);
    } else {
      MarkerOfPrefix(lines, m, marker);
      assert forall j :: d < j < |init| ==> init[j] == lines[j];
      DataLinesSingleMarker(init, d, marker);
      SingleMarkerStep(lines, d, ScanOf(init, marker), marker);
    }
  }

  /** One more line after the single marker: a row up to index 15001, nothing after. */
  lemma SingleMarkerStep(lines: seq<string>, d: nat, sc: Scan, marker: string -> bool)
    requires d < |lines| - 1 && !marker(lines[|lines| - 1])
    requires sc == SingleMarkerScan(lines[..|lines| - 1], d, |lines| - 1)
    ensures ScanStep(sc, |lines| - 1, lines[|lines| - 1], marker) == SingleMarkerScan(lines, d, |lines|)
  {
    var m := |lines| - 1;
    var init := lines[..m];
    if m >= EndOfData(d) {
      assert init[d + 1..EndOfData(d)] == lines[d + 1..EndOfData(d)];
    } else {
      assert lines[d + 1..m + 1] == init[d + 1..m] + [lines[m]];
    }
  }

  /** Once the loop has broken, later lines change nothing. */
  lemma {:induction false} StoppedStays(lines: seq<string>, i: nat, k: nat, marker: string -> bool)
    requires i <= k <= |lines| && ScanOf(lines[..i], marker).phase == Stopped
    ensures ScanOf(lines[..k], marker) == ScanOf(lines[..i], marker)
    decreases k - i
  {
    if k > i {
      StoppedStays(lines, i, k - 1, marker);
      ScanSnoc(lines, k - 1, marker);
    }
  }

  /** Reading fewer lines gives a prefix of the rows. */
  lemma {:induction false} DataLinesPrefix(lines: seq<string>, k: nat, marker: string -> bool)
    requires k <= |lines|
    ensures DataLines(lines[..k], marker) <= DataLines(lines, marker)
    decreases |lines| - k
  {
    if k < |lines| {
      DataLinesPrefix(lines, k + 1, marker);
      ScanSnoc(lines, k, marker);
    } else {
      assert lines[..k] == lines;
    }
  }

  /** The rows are lines that come after the first marker and are not markers. */
  lemma {:induction false} DataLinesAfterMarker(lines: seq<string>, marker: string -> bool)
    ensures DataLines(lines, marker) != [] ==> MarkerIndex(lines, marker).Some?
    ensures DataLines(lines, marker) != [] ==>
      forall l <- DataLines(lines, marker) :: !marker(l) && l in lines[MarkerIndex(lines, marker).value + 1..]
    decreases |lines|
  {
    if lines != [] {
      var m := |lines| - 1;
      var init := lines[..m];
      DataLinesAfterMarker(init, marker);
      PhaseBefore(init, marker);
      if ScanOf(init, marker).phase != Before {
        MarkerOfPrefix(lines, m, marker);
        var d := MarkerIndex(lines, marker).value;
        assert init[d + 1..] == lines[d + 1..m];
        forall l | l in DataLines(init, marker)
          ensures l in lines[d + 1..]
        {
          InLaterSlice(lines, d + 1, m, l);
        }
        assert lines[d + 1..][m - d - 1] == lines[m];
      }
    }
  }

  /** A line among `lines[a..b]` is among `lines[a..]`. */
  lemma InLaterSlice(lines: seq<string>, a: nat, b: nat, l: string)
    requires a <= b <= |lines| && l in lines[a..b]
    ensures l in lines[a..]
  {
    var k :| 0 <= k < b - a && lines[a..b][k] == l;
    assert lines[a..][k] == l;
  }

  /** A data row with the wrong number of values fails the whole read. */
  lemma BadRowFails(lines: seq<string>, i: nat, n: nat, marker: string -> bool, parse: string -> seq<int>)
    requires i < |lines| && ScanOf(lines[..i], marker).phase == Counting && !marker(lines[i])
    requires |parse(lines[i])| != n
    ensures ChannelMatrix(lines, n, marker, parse) == Err(ValueError)
  {
    ScanSnoc(lines, i, marker);
    DataLinesPrefix(lines, i + 1, marker);
    var all := DataLines(lines, marker);
    var k := |DataLines(lines[..i], marker)|;
    assert DataLines(lines[..i + 1], marker)[k] == lines[i];
    assert all[k] == lines[i];
    FixedWidthRowsBadRow(Parsed(all, parse), n, k);
  }

  /** A marker line sets `count` and adds no row. */
  lemma MarkerLine(lines: seq<string>, i: nat, marker: string -> bool)
    requires i < |lines| && marker(lines[i]) && ScanOf(lines[..i], marker).phase != Stopped
    ensures ScanOf(lines[..i + 1], marker) == Scan(Counting, DataLines(lines[..i], marker))
  {
    ScanSnoc(lines, i, marker);
  }

  /** A line before the first marker is ignored. */
  lemma IgnoredLine(lines: seq<string>, i: nat, marker: string -> bool)
    requires i < |lines| && !marker(lines[i]) && ScanOf(lines[..i], marker).phase == Before
    ensures ScanOf(lines[..i + 1], marker) == ScanOf(lines[..i], marker)
  {
    ScanSnoc(lines, i, marker);
  }

  /** A line after the first marker that is not a marker is the next row; the loop breaks after
      it when its index is above 15000. */
  lemma RowLine(lines: seq<string>, i: nat, marker: string -> bool, parse: string -> seq<int>)
    requires i < |lines| && !marker(lines[i]) && ScanOf(lines[..i], marker).phase == Counting
    ensures ScanOf(lines[..i + 1], marker).phase == if i > LastUnbrokenIndex then Stopped else Counting
    ensures Parsed(DataLines(lines[..i + 1], marker), parse) == Parsed(DataLines(lines[..i], marker), parse) + [parse(lines[i])]
  {
    ScanSnoc(lines, i, marker);
    ParsedSnoc(DataLines(lines[..i], marker), lines[i], parse);
  }

  /** The data loop, with its `count` flag, the marker `continue` and the break. */
  method ReadData(lines: seq<string>, n: nat, marker: string -> bool, parse: string -> seq<int>) returns (r: Result<seq<seq<int>>>)
    ensures r == ChannelMatrix(lines, n, marker, parse)
  {
    var count := false;
    var rows: seq<seq<int>> := [];
    var i := 0;
    while i < |lines|
      invariant 0 <= i <= |lines|
      invariant count <==> ScanOf(lines[..i], marker).phase != Before
      invariant ScanOf(lines[..i], marker).phase != Stopped
      invariant rows == Parsed(DataLines(lines[..i], marker), parse)
      invariant forall s :: 0 <= s < |rows| ==> |rows[s]| == n
    {
      if marker(lines[i]) {
        MarkerLine(lines, i, marker);
        count := true;
        i := i + 1;
        continue;
      }
      if !count {
        IgnoredLine(lines, i, marker);
      } else {
        RowLine(lines, i, marker, parse);
        var newline := parse(lines[i]);
        if |newline| != n {
          BadRowFails(lines, i, n, marker, parse);
          return Err(ValueError);
        }
        rows := rows + [newline];
        if i > LastUnbrokenIndex {
          StoppedStays(lines, i + 1, |lines|, marker);
          assert lines[..|lines|] == lines;
          ChannelMatrixOfRows(lines, n, rows, marker, parse);
          return Ok(Transpose(rows, n));
        }
      }
      i := i + 1;
    }
    assert lines[..i] == lines;
    ChannelMatrixOfRows(lines, n, rows, marker, parse);
    return Ok(Transpose(rows, n));
  }

  /** Rows of the right width parsed from all the data lines make the channel matrix. */
  lemma ChannelMatrixOfRows(lines: seq<string>, n: nat, rows: seq<seq<int>>, marker: string -> bool, parse: string -> seq<int>)
    requires rows == Parsed(DataLines(lines, marker), parse)
    requires forall s :: 0 <= s < |rows| ==> |rows[s]| == n
    ensures ChannelMatrix(lines, n, marker, parse) == Ok(Transpose(rows, n))
  {
  }

  /** The header loop of `get_channels`: lines are read until the first marker. */
  method ReadHeaderPart(lines: seq<string>, marker: string -> bool, step: (HeaderState, string) -> Result<HeaderState>)
    returns (r: Result<HeaderState>)
    ensures r == HeaderFold(HeaderLines(lines, marker), step)
  {
    r := Ok(HeaderState(InitialHeader(), 0));
    var i := 0;
    while i < |lines|
      invariant 0 <= i <= |lines|
      invariant forall j :: 0 <= j < i ==> !marker(lines[j])
      invariant r.Ok? && HeaderFold(lines[..i], step) == r
    {
      if marker(lines[i]) {
        break;
      }
      HeaderFoldSnoc(lines, i, r.value, step);
      r := step(r.value, lines[i]);
      if r.Err? {
        HeaderFoldStops(lines, i + 1, marker, step);
        return;
      }
      i := i + 1;
    }
    HeaderLinesAt(lines, i, marker);
  }

  /** `get_channels(filename)`: the header loop, the channel count, then the data loop. */
  method GetChannels(lines: seq<string>) returns (r: Result<(Header, seq<seq<int>>)>)
    ensures r == Channels(lines)
  {
    var header := ReadHeaderPart(lines, IsMarker, HeaderStep);
    if header.Err? {
      return Err(header.error);
    }
    var st := header.value;
    var n := ChannelCount(st.header);
    if n.Err? {
      return Err(n.error);
    }
    var m := ReadData(lines, n.value, IsMarker, Numbers(','));
    if m.Err? {
      return Err(m.error);
    }
    return Ok((st.header, m.value));
  }

  /** Folding one more line applies one more step. */
  lemma HeaderFoldSnoc(lines: seq<string>, i: nat, st: HeaderState, step: (HeaderState, string) -> Result<HeaderState>)
    requires i < |lines| && HeaderFold(lines[..i], step) == Ok(st)
    ensures HeaderFold(lines[..i + 1], step) == step(st, lines[i])
  {
    assert lines[..i + 1][..i] == lines[..i];
  }

  /** The header loop reads exactly the lines before the first marker. */
  lemma HeaderLinesAt(lines: seq<string>, k: nat, marker: string -> bool)
    requires k <= |lines| && forall j :: 0 <= j < k ==> !marker(lines[j])
    requires k == |lines| || marker(lines[k])
    ensures HeaderLines(lines, marker) == lines[..k]
  {
    if k == |lines| {
      assert MarkerIndex(lines, marker).None?;
      assert lines[..k] == lines;
    } else {
      var v := MarkerIndex(lines, marker).value;
      assert v == k;
    }
  }

  /** An error among the lines before the first marker is the error of the header loop. */
  lemma HeaderFoldStops(lines: seq<string>, k: nat, marker: string -> bool, step: (HeaderState, string) -> Result<HeaderState>)
    requires k <= |lines| && forall j :: 0 <= j < k ==> !marker(lines[j])
    requires HeaderFold(lines[..k], step).Err?
    ensures HeaderFold(HeaderLines(lines, marker), step) == HeaderFold(lines[..k], step)
  {
    var header := HeaderLines(lines, marker);
    assert k <= |header|;
    assert header[..k] == lines[..k];
    HeaderFoldFailed(header, k, step);
  }

  /** An error in the header loop ends it. */
  lemma {:induction false} HeaderFoldFailed(lines: seq<string>, k: nat, step: (HeaderState, string) -> Result<HeaderState>)
    requires k <= |lines| && HeaderFold(lines[..k], step).Err?
    ensures HeaderFold(lines, step) == HeaderFold(lines[..k], step)
    decreases |lines|
  {
    if k == |lines| {
      assert lines[..k] == lines;
    } else {
      var init := lines[..|lines| - 1];
      assert init[..k] == lines[..k];
      HeaderFoldFailed(init, k, step);
    }
  }

  /** A `key: value` line read before any channel stores the normalised value under the
      normalised key, whatever follows the first `:`. */
  lemma KeyValueLine(st: HeaderState, key: string, value: string)
    requires st.current == 0 && ':' !in key
    requires var line := key + ":" + value;
      Strip(line) !in {"[Header]", ""} && !StartsWith(line, "Data Format") && !StartsWith(line, "Channel #")
    ensures HeaderStep(st, key + ":" + value) == Ok(st.(header := st.header[NormalisedKey(key) := Field(NormalisedValue(value))]))
  {
    var line := key + ":" + value;
    assert line[|key|] == ':' && line[..|key|] == key;
    assert IndexOf(line, ':') == Some(|key|);
    assert line[|key| + 1..] == value;
  }
}

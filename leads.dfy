/** The ECG export reader the scripts share. Line index 3 of an export is the column header, one
    token per column written `<lead>(<number>)`; each requested lead is located in the header by
    its first occurrence, and every later line contributes one sample per requested lead. */
module Leads {
  import opened Errors
  import opened Text
  import opened Table

  /** `re.search('(.*)\(.', token).group(1)`: the text before the last `(` that has a character
      after it, or `None` (the search fails) when there is no such `(`. Tokens come from
      `str.split()`, so they hold no line break and `.` matches any character. */
  function ChannelName(token: string): (r: Option<string>)
    ensures r.None? <==> forall p: nat :: p + 1 < |token| ==> token[p] != '('
    ensures r.Some? ==>
      && |r.value| + 1 < |token| && token[..|r.value|] == r.value && token[|r.value|] == '('
      && forall p: nat :: |r.value| < p < |token| - 1 ==> token[p] != '('
  {
    if |token| < 2 then None
    else
      var found := LastOccurrence(token, "(", |token| - 1);
      assert forall p: nat :: p + 1 < |token| ==> (OccursAt(token, p, "(") <==> token[p] == '(') by {
        forall p: nat | p + 1 < |token| ensures OccursAt(token, p, "(") <==> token[p] == '(' {
          assert token[p..p + 1] == [token[p]];
        }
      }
      match found
      case None => None
      case Some(p) => Some(token[..p])
  }

  /** A header token `<name>(<digits>)` normalises to `<name>`. */
  lemma ChannelNameOfToken(name: string, number: string)
    requires '(' !in number
    ensures ChannelName(name + "(" + number + ")") == Some(name)
  {
    var token := name + "(" + number + ")";
    assert token[|name|] == '(';
    assert token[..|name|] == name;
    forall p: nat | |name| < p < |token| - 1
      ensures token[p] != '('
    {
      assert token[p] == number[p - |name| - 1];
    }
  }

  /** The header tokens with their numbers cut off, as the header loop rewrites them in place; the
      first token without a `(` before its last character makes `.group` fail on `None`. */
  function NormalisedNames(tokens: seq<string>): (r: Result<seq<string>>)
    ensures r.Ok? <==> forall j :: 0 <= j < |tokens| ==> ChannelName(tokens[j]).Some?
    ensures r.Err? ==> r.error == AttributeError
    ensures r.Ok? ==> |r.value| == |tokens| && forall j :: 0 <= j < |tokens| ==> r.value[j] == ChannelName(tokens[j]).value
  {
    if tokens == [] then Ok([])
    else
      var init := tokens[..|tokens| - 1];
      assert forall j :: 0 <= j < |init| ==> init[j] == tokens[j];
      match NormalisedNames(init)
      case Err(e) => Err(e)
      case Ok(front) =>
        match ChannelName(tokens[|tokens| - 1])
        case None => Err(AttributeError)
        case Some(n) => Ok(front + [n])
  }

  /** The loop `channel_names[j] = re.search(...).group(1)` over the header tokens. */
  method NormaliseNames(tokens: seq<string>) returns (r: Result<seq<string>>)
    ensures r == NormalisedNames(tokens)
  {
    var names := tokens;
    var j := 0;
    while j < |names|
      invariant 0 <= j <= |tokens| && |names| == |tokens|
      invariant names[j..] == tokens[j..]
      invariant NormalisedNames(tokens[..j]) == Ok(names[..j])
    {
      assert names[j] == tokens[j];
      var name := ChannelName(names[j]);
      if name.None? {
        return Err(AttributeError);
      }
      assert tokens[..j + 1][..j] == tokens[..j];
      names := names[j := name.value];
      assert names[..j + 1] == names[..j] + [name.value];
      j := j + 1;
    }
    assert tokens[..j] == tokens && names[..j] == names;
    return Ok(names);
  }

  /** `channel_names.index(lead)` for each requested lead, in order; an absent lead raises
      ValueError. */
  function LeadIndices(names: seq<string>, leads: seq<string>): (r: Result<seq<nat>>)
    ensures r.Ok? <==> forall k :: 0 <= k < |leads| ==> leads[k] in names
    ensures r.Err? ==> r.error == ValueError
    ensures r.Ok? ==> |r.value| == |leads|
    ensures r.Ok? ==> forall k :: 0 <= k < |leads| ==>
      r.value[k] < |names| && names[r.value[k]] == leads[k] && leads[k] !in names[..r.value[k]]
  {
    if leads == [] then Ok([])
    else
      var init := leads[..|leads| - 1];
      assert forall k :: 0 <= k < |init| ==> init[k] == leads[k];
      match LeadIndices(names, init)
      case Err(e) => Err(e)
      case Ok(front) =>
        match IndexOf(names, leads[|leads| - 1])
        case None => Err(ValueError)
        case Some(c) => Ok(front + [c])
  }

  /** The loop filling `indices` from the normalised header. */
  method FindLeads(names: seq<string>, leads: seq<string>) returns (r: Result<seq<nat>>)
    ensures r == LeadIndices(names, leads)
  {
    var indices: seq<nat> := [];
    var k := 0;
    while k < |leads|
      invariant 0 <= k <= |leads|
      invariant LeadIndices(names, leads[..k]) == Ok(indices)
    {
      assert leads[..k + 1][..k] == leads[..k];
      var c := IndexOf(names, leads[k]);
      if c.None? {
        return Err(ValueError);
      }
      indices := indices + [c.value];
      k := k + 1;
    }
    assert leads[..k] == leads;
    return Ok(indices);
  }

  /** The column of each requested lead in the header line. */
  function HeaderIndices(header: string, leads: seq<string>): (r: Result<seq<nat>>)
    ensures r.Ok? ==> |r.value| == |leads|
  {
    match NormalisedNames(Words(header))
    case Err(e) => Err(e)
    case Ok(names) => LeadIndices(names, leads)
  }

  /** The number of lines after the header. */
  function SampleCount(lines: seq<string>): nat {
    if |lines| < 4 then 0 else |lines| - 4
  }

  /** The samples x leads rows of an export: lines 0 to 2 are skipped, line 3 is the header,
      and every later line, read as space-separated integers, gives the entries at the lead
      columns (IndexError when the line is too short). */
  function LeadRows(lines: seq<string>, leads: seq<string>): (r: Result<seq<seq<int>>>)
    ensures r.Ok? ==> |r.value| == SampleCount(lines)
    ensures r.Ok? ==> forall s :: 0 <= s < |r.value| ==> |r.value[s]| == |leads|
  {
    if |lines| < 4 then Ok([]) else RowsFromHeader(lines[3..], leads)
  }

  /** The rows read from the header line on: `body[0]` is the header and every later line
      gives one row. */
  function RowsFromHeader(body: seq<string>, leads: seq<string>): (r: Result<seq<seq<int>>>)
    requires |body| >= 1
    ensures r.Ok? ==> |r.value| == |body| - 1
    ensures r.Ok? ==> forall s :: 0 <= s < |r.value| ==> |r.value[s]| == |leads|
  {
    match HeaderIndices(body[0], leads)
    case Err(e) => Err(e)
    case Ok(idx) => SelectedRows(Parsed(body[1..], Numbers(' ')), idx)
  }

  /** Past the preamble, the header decides the error, and a header that names every lead
      selects its columns from every later line. */
  lemma LeadRowsAt(lines: seq<string>, leads: seq<string>)
    requires 4 <= |lines|
    ensures LeadRows(lines, leads) == match HeaderIndices(lines[3], leads)
      case Err(e) => Err(e)
      case Ok(idx) => SelectedRows(Parsed(lines[4..], Numbers(' ')), idx)
  {
    assert lines[3..][0] == lines[3];
    assert lines[3..][1..] == lines[4..];
  }

  /** The line loop with its `read_data` flag: the header is decoded at line index 3, and each
      line after it appends one row. */
  method ReadLeads(lines: seq<string>, leads: seq<string>) returns (r: Result<seq<seq<int>>>)
    ensures r == LeadRows(lines, leads)
  {
    var readData := false;
    var idx: seq<nat> := [];
    var rows: seq<seq<int>> := [];
    var i := 0;
    while i < |lines|
      invariant 0 <= i <= |lines|
      invariant readData <==> i >= 4
      invariant i < 4 ==> rows == []
      invariant i >= 4 ==> HeaderIndices(lines[3], leads) == Ok(idx) && SelectedRows(Parsed(lines[4..i], Numbers(' ')), idx) == Ok(rows)
    {
      if readData {
        var row := Take(ParseNumbers(lines[i], ' '), idx);
        if row.Err? {
          LeadRowFails(lines, leads, i, idx);
          return Err(IndexError);
        }
        LeadRowStep(lines, i, idx, rows, Numbers(' '));
        rows := rows + [row.value];
      }
      if i == 3 {
        readData := true;
        LeadRowsAt(lines, leads);
        var names := NormaliseNames(Words(lines[i]));
        if names.Err? {
          return Err(names.error);
        }
        var found := FindLeads(names.value, leads);
        if found.Err? {
          return Err(found.error);
        }
        idx := found.value;
        assert lines[4..4] == [];
      }
      i := i + 1;
    }
    if i >= 4 {
      assert lines[4..i] == lines[4..];
      LeadRowsAt(lines, leads);
    }
    return Ok(rows);
  }

  /** A line after the header adds the entries at the lead columns as one more row. */
  lemma LeadRowStep(lines: seq<string>, i: nat, idx: seq<nat>, rows: seq<seq<int>>, parse: string -> seq<int>)
    requires 4 <= i < |lines| && SelectedRows(Parsed(lines[4..i], parse), idx) == Ok(rows)
    requires Take(parse(lines[i]), idx).Ok?
    ensures SelectedRows(Parsed(lines[4..i + 1], parse), idx) == Ok(rows + [Take(parse(lines[i]), idx).value])
  {
    ParsedSnoc(lines[4..i], lines[i], parse);
    assert lines[4..i + 1] == lines[4..i] + [lines[i]];
    SelectedRowsSnoc(Parsed(lines[4..i], parse), parse(lines[i]), idx);
  }

  /** A line after the header too short for a lead column fails the whole read. */
  lemma LeadRowFails(lines: seq<string>, leads: seq<string>, i: nat, idx: seq<nat>)
    requires 4 <= i < |lines| && HeaderIndices(lines[3], leads) == Ok(idx)
    requires Take(ParseNumbers(lines[i], ' '), idx).Err?
    ensures LeadRows(lines, leads) == Err(IndexError)
  {
    SelectedRowsBadLine(lines, 4, i, idx, Numbers(' '));
    LeadRowsAfterHeader(lines, leads, idx);
  }

  /** Past a header that names every lead, the rows are the selected entries of the later lines. */
  lemma LeadRowsAfterHeader(lines: seq<string>, leads: seq<string>, idx: seq<nat>)
    requires 4 <= |lines| && HeaderIndices(lines[3], leads) == Ok(idx)
    ensures LeadRows(lines, leads) == SelectedRows(Parsed(lines[4..], Numbers(' ')), idx)
  {
    LeadRowsAt(lines, leads);
  }

  /** `np.transpose(channels)`: one row per requested lead, one entry per line after the header. */
  function LeadMatrix(lines: seq<string>, leads: seq<string>): (r: Result<seq<seq<int>>>)
    ensures r.Ok? ==> |r.value| == |leads| && forall k :: 0 <= k < |leads| ==> |r.value[k]| == SampleCount(lines)
  {
    match LeadRows(lines, leads)
    case Err(e) => Err(e)
    case Ok(rows) => Ok(Transpose(rows, |leads|))
  }

  /** Row `k` of the matrix is the column of the first header token whose normalised name is
      `leads[k]`, read from every line after the header. */
  lemma LeadMatrixEntries(lines: seq<string>, leads: seq<string>, k: nat, s: nat)
    requires LeadMatrix(lines, leads).Ok? && k < |leads| && 4 + s < |lines|
    ensures
      var names := NormalisedNames(Words(lines[3])).value;
      var c := IndexOf(names, leads[k]).value;
      var row := ParseNumbers(lines[4 + s], ' ');
      && NormalisedNames(Words(lines[3])).Ok?
      && c < |names| && names[c] == leads[k] && leads[k] !in names[..c]
      && c < |row| && LeadMatrix(lines, leads).value[k][s] == row[c]
  {
    LeadRowsAt(lines, leads);
    var idx := HeaderIndices(lines[3], leads).value;
    IndexOfFirst(NormalisedNames(Words(lines[3])).value, leads[k], idx[k]);
    ProjectedEntry(Parsed(lines[4..], Numbers(' ')), idx, k, s);
    ParsedFromAt(lines, 4, 4 + s, Numbers(' '));
  }

  /** Why a read fails: a header token without a number raises AttributeError, then a lead
      missing from the header raises ValueError, then a data line too short for a lead column
      raises IndexError. A file of fewer than four lines gives one empty row per lead. */
  lemma LeadMatrixErrors(lines: seq<string>, leads: seq<string>)
    ensures |lines| < 4 ==> LeadMatrix(lines, leads) == Ok(seq(|leads|, k => []))
    ensures |lines| >= 4 && NormalisedNames(Words(lines[3])).Err? ==> LeadMatrix(lines, leads) == Err(AttributeError)
    ensures |lines| >= 4 && NormalisedNames(Words(lines[3])).Ok? ==>
      var names := NormalisedNames(Words(lines[3])).value;
      (exists k :: 0 <= k < |leads| && leads[k] !in names) ==> LeadMatrix(lines, leads) == Err(ValueError)
    ensures LeadMatrix(lines, leads).Err? ==> LeadMatrix(lines, leads).error in {AttributeError, ValueError, IndexError}
  {
    if |lines| < 4 {
      assert Transpose<int>([], |leads|) == seq(|leads|, k => []);
    }
  }

  /** Lines 0 to 2 are never read. */
  lemma LeadRowsIgnorePreamble(a: seq<string>, b: seq<string>, rest: seq<string>, leads: seq<string>)
    requires |a| == 3 && |b| == 3
    ensures LeadRows(a + rest, leads) == LeadRows(b + rest, leads)
  {
    if |rest| > 0 {
      assert (a + rest)[3..] == rest == (b + rest)[3..];
    }
  }

  /** What a script is given as `ders`: a tuple of lead names, a single lead name, or a value of
      another type (a list of lead names, or something that cannot be iterated at all). */
  datatype Ders = Tuple(items: seq<string>) | Str(text: string) | Other(elements: Option<seq<string>>)

  /** The leads of the `derivations` dict the tuple/str dispatch builds: the tuple's items in
      order, or the one string; `None` when `ders` is neither, which leaves `channels` unbound. */
  function DispatchedLeads(ders: Ders): (r: Option<seq<string>>)
    ensures r.None? <==> ders.Other?
    ensures ders.Tuple? ==> r == Some(ders.items)
    ensures ders.Str? ==> r == Some([ders.text])
  {
    match ders
    case Tuple(items) => Some(items)
    case Str(text) => Some([text])
    case Other(_) => None
  }

  /** The lead matrix of an export read with the tuple/str dispatch. When `ders` is of another
      type the header at line 3 is still normalised (AttributeError), and then the first use of
      the unbound `channels`, in the first data line or in the return, raises
      UnboundLocalError. */
  function DispatchedMatrix(lines: seq<string>, ders: Ders): (r: Result<seq<seq<int>>>)
    ensures ders.Other? ==> r.Err? && r.error in {AttributeError, UnboundLocalError}
    ensures !ders.Other? ==> r == LeadMatrix(lines, DispatchedLeads(ders).value)
    ensures r.Ok? && ders.Tuple? ==> |r.value| == |ders.items|
    ensures r.Ok? && ders.Str? ==> |r.value| == 1
  {
    match DispatchedLeads(ders)
    case Some(leads) => LeadMatrix(lines, leads)
    case None =>
      if |lines| >= 4 && NormalisedNames(Words(lines[3])).Err? then Err(AttributeError) else Err(UnboundLocalError)
  }

  /** `get_ecg_data(filename, ders)` of the plotting scripts: the header and line loops with the
      tuple/str dispatch, returning the matrix and `ders` unchanged. */
  method ReadDispatched(lines: seq<string>, ders: Ders) returns (r: Result<(seq<seq<int>>, Ders)>)
    ensures r.Ok? <==> DispatchedMatrix(lines, ders).Ok?
    ensures r.Err? ==> r.error == DispatchedMatrix(lines, ders).error
    ensures r.Ok? ==> r.value == (DispatchedMatrix(lines, ders).value, ders)
  {
    var leads := DispatchedLeads(ders);
    if leads.None? {
      if |lines| >= 4 {
        var names := NormaliseNames(Words(lines[3]));
        if names.Err? {
          return Err(names.error);
        }
      }
      return Err(UnboundLocalError);
    }
    var rows := ReadLeads(lines, leads.value);
    if rows.Err? {
      return Err(rows.error);
    }
    return Ok((Transpose(rows.value, |leads.value|), ders));
  }
}

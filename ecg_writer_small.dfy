/** `ecg_writer_small.py`: the ECG exports of one zip archive, up to a limit, and the tuple/str
    lead reader applied to an archive member. */
module EcgWriterSmall {
  import opened Errors
  import opened Names
  import opened Archives
  import Leads

  /** The names `get_files_from_zip` keeps from a name list: a name that `isEcg` accepts (an
      ECG export, `IsEcgExport`) is kept while fewer than `limit` have been kept. */
  function LimitedEcgNames(names: seq<string>, limit: int, isEcg: string -> bool): (r: seq<string>)
    ensures |r| <= |names|
    ensures limit <= 0 ==> r == []
  {
    if names == [] then []
    else
      var init := LimitedEcgNames(names[..|names| - 1], limit, isEcg);
      var last := names[|names| - 1];
      init + if isEcg(last) && |init| < limit then [last] else []
  }

  /** Only ECG exports of the archive are kept, and never more than `limit` of them. */
  lemma {:induction false} LimitedEcgNamesKept(names: seq<string>, limit: int, isEcg: string -> bool)
    ensures |LimitedEcgNames(names, limit, isEcg)| <= if limit <= 0 then 0 else limit
    ensures forall name <- LimitedEcgNames(names, limit, isEcg) :: isEcg(name) && name in names
    decreases |names|
  {
    if names != [] {
      var init := names[..|names| - 1];
      LimitedEcgNamesKept(init, limit, isEcg);
      forall name | name in init ensures name in names {
        var j :| 0 <= j < |init| && init[j] == name;
        assert names[j] == name;
      }
    }
  }

  /** Every name `isEcg` accepts, in order: the reference without a limit. */
  function EcgNames(names: seq<string>, isEcg: string -> bool): seq<string> {
    if names == [] then []
    else EcgNames(names[..|names| - 1], isEcg) + if isEcg(names[|names| - 1]) then [names[|names| - 1]] else []
  }

  /** The limit keeps the first `limit` ECG exports of the archive (none for a limit of zero
      or less, all of them when there are fewer). */
  lemma {:induction false} LimitedEcgNamesPrefix(names: seq<string>, limit: int, isEcg: string -> bool)
    ensures var all := EcgNames(names, isEcg);
      LimitedEcgNames(names, limit, isEcg) == all[..if limit <= 0 then 0 else if limit < |all| then limit else |all|]
    decreases |names|
  {
    if names != [] {
      var init := names[..|names| - 1];
      LimitedEcgNamesPrefix(init, limit, isEcg);
      var all := EcgNames(init, isEcg);
      if isEcg(names[|names| - 1]) && 0 < limit && limit <= |all| {
        assert (all + [names[|names| - 1]])[..limit] == all[..limit];
      }
    }
  }

  /** One more name is kept when `isEcg` accepts it and the limit is not reached. */
  lemma LimitedEcgNamesStep(names: seq<string>, i: nat, limit: int, isEcg: string -> bool)
    requires i < |names|
    ensures LimitedEcgNames(names[..i + 1], limit, isEcg) == LimitedEcgNames(names[..i], limit, isEcg) +
      if isEcg(names[i]) && |LimitedEcgNames(names[..i], limit, isEcg)| < limit then [names[i]] else []
  {
    assert names[..i + 1][..i] == names[..i];
  }

  /** `get_files_from_zip(zip_filename, limit)`: `names` is the archive's name list, `None` when
      the file is not a zip archive. */
  method GetFilesFromZip(names: Option<seq<string>>, limit: int) returns (ecgFiles: seq<string>)
    ensures names.None? ==> ecgFiles == []
    ensures names.Some? ==> ecgFiles == LimitedEcgNames(names.value, limit, IsEcgExport)
  {
    ecgFiles := [];
    if names.None? {
      return;
    }
    ecgFiles := CollectEcgNames(names.value, limit, IsEcgExport);
  }

  /** The default `limit` of `get_files_from_zip`. */
  const DefaultLimit := 3

  /** `get_files_from_zip(zip_filename)` with the default limit: at most three ECG exports, all
      from the archive. */
  method GetFilesFromZipDefault(names: Option<seq<string>>) returns (ecgFiles: seq<string>)
    ensures names.None? ==> ecgFiles == []
    ensures names.Some? ==> ecgFiles == LimitedEcgNames(names.value, DefaultLimit, IsEcgExport)
    ensures |ecgFiles| <= DefaultLimit
    ensures forall name <- ecgFiles :: IsEcgExport(name) && names.Some? && name in names.value
  {
    ecgFiles := GetFilesFromZip(names, DefaultLimit);
    if names.Some? {
      LimitedEcgNamesKept(names.value, DefaultLimit, IsEcgExport);
    }
  }

  /** The loop of `get_files_from_zip` with its `count`. */
  method CollectEcgNames(list: seq<string>, limit: int, isEcg: string -> bool) returns (ecgFiles: seq<string>)
    ensures ecgFiles == LimitedEcgNames(list, limit, isEcg)
  {
    ecgFiles := [];
    var count := 0;
    var i := 0;
    while i < |list|
      invariant 0 <= i <= |list|
      invariant ecgFiles == LimitedEcgNames(list[..i], limit, isEcg)
      invariant count == |ecgFiles|
    {
      LimitedEcgNamesStep(list, i, limit, isEcg);
      if isEcg(list[i]) && count < limit {
        ecgFiles := ecgFiles + [list[i]];
        count := count + 1;
      }
      i := i + 1;
    }
    assert list[..i] == list;
  }

  /** `get_ecg_data_from_zip(zip_file, filename, ders)`: the lead matrix of the member with the
      tuple/str dispatch, returned with the lead names and the member name. A name missing
      from the archive leaves `channels` unbound at the return. */
  method GetEcgDataFromZip(zip: Archive, filename: string, ders: Leads.Ders) returns (r: Result<(seq<seq<int>>, Leads.Ders, string)>)
    ensures filename !in zip.names ==> r == Err(UnboundLocalError)
    ensures filename in zip.names ==> r.Ok? == Leads.DispatchedMatrix(zip.content(filename), ders).Ok?
    ensures filename in zip.names && r.Err? ==> r.error == Leads.DispatchedMatrix(zip.content(filename), ders).error
    ensures r.Ok? ==> r.value == (Leads.DispatchedMatrix(zip.content(filename), ders).value, ders, filename)
  {
    if filename !in zip.names {
      return Err(UnboundLocalError);
    }
    var m := Leads.ReadDispatched(zip.content(filename), ders);
    if m.Err? {
      return Err(m.error);
    }
    return Ok((m.value.0, ders, filename));
  }
}

/** `get_contact_files.py`: the ECG and contact-force file names a directory's glob results
    stand for, without the directory and without checking that the ECG file exists. */
module ContactFiles {
  import opened Errors
  import opened Names
  import Pairs

  /** The entry `[ecg, contact]` built for one glob result; AttributeError when the pattern does
      not match, IndexError when the first group has no backslash. */
  function FileNames(name: string): (r: Result<(string, string)>)
    ensures ContactForceGroups(name).None? ==> r == Err(AttributeError)
    ensures ContactForceGroups(name).Some? ==>
      var (prefix, point) := ContactForceGroups(name).value;
      && (r.Err? <==> MapName(prefix).Err?)
      && (r.Err? ==> r.error == IndexError)
      && (r.Ok? ==> r.value == (MapName(prefix).value + "_P" + point + "_ECG_Export.txt", MapName(prefix).value + "_P" + point + "_ContactForce.txt"))
  {
    match ContactForceGroups(name)
    case None => Err(AttributeError)
    case Some((prefix, point)) =>
      MapNameBetweenBackslashes(prefix);
      match MapName(prefix)
      case Err(e) => Err(e)
      case Ok(mapName) => Ok((mapName + "_P" + point + "_ECG_Export.txt", mapName + "_P" + point + "_ContactForce.txt"))
  }

  /** The ECG name here is the file `get_files` looks for, without its directory: the two
      scripts accept and reject the same glob results. */
  lemma FileNamesMatchPartner(searchDir: string, name: string)
    ensures FileNames(name).Ok? <==> Pairs.DirectoryPartner(searchDir, name).Ok?
    ensures FileNames(name).Err? ==> FileNames(name).error == Pairs.DirectoryPartner(searchDir, name).error
    ensures FileNames(name).Ok? ==> Pairs.DirectoryPartner(searchDir, name).value == searchDir + "\\" + FileNames(name).value.0
  {
  }

  /** `file_list`: one entry per glob result, in order, `entry` (`FileNames`) building each;
      the first error ends the loop. */
  function FileList(names: seq<string>, entry: string -> Result<(string, string)>): (r: Result<seq<(string, string)>>)
    ensures r.Ok? <==> forall i :: 0 <= i < |names| ==> entry(names[i]).Ok?
    ensures r.Ok? ==> |r.value| == |names| && forall i :: 0 <= i < |names| ==> entry(names[i]) == Ok(r.value[i])
  {
    if names == [] then Ok([])
    else
      var n := |names| - 1;
      assert forall i :: 0 <= i < n ==> names[..n][i] == names[i];
      match FileList(names[..n], entry)
      case Err(e) => Err(e)
      case Ok(list) =>
        match entry(names[n])
        case Err(e) => Err(e)
        case Ok(e) => Ok(list + [e])
  }

  /** `np.transpose(file_list)`: a row of ECG names and a row of contact-force names, or an
      empty array when there is no entry. */
  function Transposed(list: seq<(string, string)>): (r: seq<seq<string>>)
    ensures list == [] ==> r == []
    ensures list != [] ==> |r| == 2 && |r[0]| == |list| && |r[1]| == |list|
    ensures list != [] ==> forall i :: 0 <= i < |list| ==> r[0][i] == list[i].0 && r[1][i] == list[i].1
  {
    if list == [] then []
    else [seq(|list|, i requires 0 <= i < |list| => list[i].0), seq(|list|, i requires 0 <= i < |list| => list[i].1)]
  }

  /** `get_contact_files(search_dir)` over the glob results `names`. */
  method GetContactFiles(names: seq<string>) returns (r: Result<seq<seq<string>>>)
    ensures r.Ok? <==> FileList(names, FileNames).Ok?
    ensures r.Err? ==> r.error == FileList(names, FileNames).error
    ensures r.Ok? ==> r.value == Transposed(FileList(names, FileNames).value)
  {
    var fileList := CollectFileList(names, FileNames);
    if fileList.Err? {
      return Err(fileList.error);
    }
    return Ok(Transposed(fileList.value));
  }

  /** The loop of `file_list`. */
  method CollectFileList(names: seq<string>, entry: string -> Result<(string, string)>) returns (r: Result<seq<(string, string)>>)
    ensures r == FileList(names, entry)
  {
    var fileList: seq<(string, string)> := [];
    var i := 0;
    while i < |names|
      invariant 0 <= i <= |names|
      invariant FileList(names[..i], entry) == Ok(fileList)
    {
      assert names[..i + 1][..i] == names[..i];
      var e := entry(names[i]);
      if e.Err? {
        FileListFailed(names, i + 1, entry);
        return Err(e.error);
      }
      fileList := fileList + [e.value];
      i := i + 1;
    }
    assert names[..i] == names;
    return Ok(fileList);
  }

  /** The first glob result that fails decides the error. */
  lemma {:induction false} FileListFailed(names: seq<string>, k: nat, entry: string -> Result<(string, string)>)
    requires k <= |names| && FileList(names[..k], entry).Err?
    ensures FileList(names, entry) == FileList(names[..k], entry)
    decreases |names|
  {
    if k == |names| {
      assert names[..k] == names;
    } else {
      var init := names[..|names| - 1];
      assert init[..k] == names[..k];
      FileListFailed(init, k, entry);
    }
  }

  /** For glob results `<dir>\<map>_P<point>_ContactForce.txt` the two rows are the ECG and
      contact-force names of every result, directory removed. */
  lemma ContactFilesOfNames(dir: string, mapName: string, point: string)
    requires '\\' !in dir && '\\' !in mapName
    requires forall k: nat :: !Text.OccursAt(point, k, "_P")
    ensures FileNames(dir + "\\" + mapName + "_P" + point + "_ContactForce.txt")
      == Ok((mapName + "_P" + point + "_ECG_Export.txt", mapName + "_P" + point + "_ContactForce.txt"))
  {
    var prefix := dir + "\\" + mapName;
    assert prefix + "_P" + point + "_ContactForce.txt" == dir + "\\" + mapName + "_P" + point + "_ContactForce.txt";
    ContactForceGroupsOfName(prefix, point);
    MapNameBetweenBackslashes(prefix);
    assert prefix[|dir|] == '\\';
    assert Text.IndexOf(prefix, '\\') == Some(|dir|);
    assert prefix[|dir| + 1..] == mapName;
  }
}

/** `cartoutils.py`: pairing contact-force and ECG exports (in a directory, in a zip archive,
    and among saved `.npy` files) and reading both kinds of export into channel matrices. */
module CartoUtils {
  import opened Errors
  import opened Text
  import opened Names
  import opened Table
  import opened Archives
  import Pairs
  import ContactWindow
  import Leads

  /** `Mapping_Channels`: the leads extracted from an ECG export, in output row order. */
  const MappingChannels: seq<string> := ["M1", "M2", "M3", "M4", "M1-M2", "M3-M4"]

  /** The default `start` and `cols` of the contact-force readers: samples after index 150, and
      the force value, axial angle and lateral angle columns. */
  const ContactStart: int := 150
  const ContactCols: seq<int> := [3, 4, 5]

  /** `get_files(search_dir, lim)`: `globs` is the result of the `*ContactForce.txt` glob and
      `found` tells whether the glob for an ECG name finds a file. */
  method GetFiles(searchDir: string, globs: seq<string>, lim: Option<int>, found: string -> bool) returns (r: Result<(seq<string>, seq<string>)>)
    ensures r == Pairs.Partners(globs, lim, Pairs.DirectoryPartnerIn(searchDir), found)
  {
    r := Pairs.PairFiles(globs, lim, Pairs.DirectoryPartnerIn(searchDir), found);
  }

  /** The pairs of an archive when a contact-force file without its ECG partner is skipped:
      for each name of `list` that `partner` (the pattern and the rewrite of `get_files_from_zip`,
      `EcgPartner`) gives an ECG name for, in order, the name and that ECG name, kept when it is
      one of `all`. */
  function ZipPairs(list: seq<string>, all: seq<string>, partner: string -> Option<string>): (r: (seq<string>, seq<string>))
    ensures |r.0| == |r.1| <= |list|
    ensures forall j :: 0 <= j < |r.0| ==> r.0[j] in list && partner(r.0[j]) == Some(r.1[j]) && r.1[j] in all
  {
    if list == [] then ([], [])
    else
      var init := list[..|list| - 1];
      var name := list[|list| - 1];
      assert forall x <- init :: x in list;
      var (cfs, ecgs) := ZipPairs(init, all, partner);
      match partner(name)
      case Some(ecg) => if ecg in all then (cfs + [name], ecgs + [ecg]) else (cfs, ecgs)
      case None => (cfs, ecgs)
  }

  /** The pairs as `get_files_from_zip` collects them: the same as `ZipPairs`, except that a
      contact-force file whose partner is missing makes the message `"..." + cf_file` add a
      `Match` to a `str`, which raises TypeError. */
  function ZipPairsAsWritten(list: seq<string>, all: seq<string>, partner: string -> Option<string>): (r: Result<(seq<string>, seq<string>)>)
    ensures r.Ok? <==> forall x <- list :: partner(x).Some? ==> partner(x).value in all
    ensures r.Err? ==> r.error == TypeError
    ensures r.Ok? ==> r.value == ZipPairs(list, all, partner)
  {
    if list == [] then Ok(([], []))
    else
      var init := list[..|list| - 1];
      var name := list[|list| - 1];
      assert list == init + [name];
      match ZipPairsAsWritten(init, all, partner)
      case Err(e) => Err(e)
      case Ok((cfs, ecgs)) =>
        match partner(name)
        case None => Ok((cfs, ecgs))
        case Some(ecg) => if ecg in all then Ok((cfs + [name], ecgs + [ecg])) else Err(TypeError)
  }

  /** `get_files_from_zip(zip_filename)`: `names` is the archive's name list, or `None` when
      `is_zipfile` rejects the file, which gives two empty lists. */
  method GetFilesFromZip(names: Option<seq<string>>) returns (r: Result<(seq<string>, seq<string>)>)
    ensures names.None? ==> r == Ok(([], []))
    ensures names.Some? ==> r == ZipPairsAsWritten(names.value, names.value, EcgPartner)
  {
    if names.None? {
      return Ok(([], []));
    }
    r := CollectZipPairs(names.value, EcgPartner);
  }

  /** The loop of `get_files_from_zip` over the archive's name list. */
  method CollectZipPairs(filenameList: seq<string>, partner: string -> Option<string>) returns (r: Result<(seq<string>, seq<string>)>)
    ensures r == ZipPairsAsWritten(filenameList, filenameList, partner)
  {
    var contactFiles: seq<string> := [];
    var ecgFiles: seq<string> := [];
    var count := 0;
    var i := 0;
    while i < |filenameList|
      invariant 0 <= i <= |filenameList|
      invariant ZipPairsAsWritten(filenameList[..i], filenameList, partner) == Ok((contactFiles, ecgFiles))
      invariant count == |contactFiles|
    {
      assert filenameList[..i + 1][..i] == filenameList[..i];
      var filename := filenameList[i];
      var ecg := partner(filename);
      if ecg.Some? {
        if ecg.value in filenameList {
          contactFiles := contactFiles + [filename];
          ecgFiles := ecgFiles + [ecg.value];
          count := count + 1;
        } else {
          ZipPairsFailed(filenameList, i + 1, partner);
          return Err(TypeError);
        }
      }
      i := i + 1;
    }
    assert filenameList[..i] == filenameList;
    return Ok((contactFiles, ecgFiles));
  }

  /** Once a prefix of the name list raises, the whole list does. */
  lemma {:induction false} ZipPairsFailed(list: seq<string>, k: nat, partner: string -> Option<string>)
    requires k <= |list| && ZipPairsAsWritten(list[..k], list, partner).Err?
    ensures ZipPairsAsWritten(list, list, partner).Err?
  {
    var x :| x in list[..k] && partner(x).Some? && partner(x).value !in list;
    assert x in list;
  }

  /** A contact-force file of the archive whose partner is in the archive is paired with it. */
  lemma {:induction false} ZipPairsComplete(list: seq<string>, all: seq<string>, partner: string -> Option<string>, i: nat)
    requires i < |list| && partner(list[i]).Some? && partner(list[i]).value in all
    ensures list[i] in ZipPairs(list, all, partner).0 && partner(list[i]).value in ZipPairs(list, all, partner).1
    decreases |list|
  {
    var n := |list| - 1;
    if i < n {
      assert list[..n][i] == list[i];
      ZipPairsComplete(list[..n], all, partner, i);
    }
  }

  /** Pairs come out in name-list order: the pairs of a concatenation are the pairs of its parts. */
  lemma {:induction false} ZipPairsAppend(a: seq<string>, b: seq<string>, all: seq<string>, partner: string -> Option<string>)
    ensures ZipPairs(a + b, all, partner).0 == ZipPairs(a, all, partner).0 + ZipPairs(b, all, partner).0
    ensures ZipPairs(a + b, all, partner).1 == ZipPairs(a, all, partner).1 + ZipPairs(b, all, partner).1
    decreases |b|
  {
    if b == [] {
      assert a + b == a;
    } else {
      var n := |b| - 1;
      assert (a + b)[..|a + b| - 1] == a + b[..n];
      assert (a + b)[|a + b| - 1] == b[n];
      ZipPairsAppend(a, b[..n], all, partner);
    }
  }

  /** An archive holding a contact-force file but not its ECG export: `get_files_from_zip`
      raises instead of skipping the file. */
  lemma GetFilesFromZipMissingPartner()
    ensures ZipPairsAsWritten(["map_P1_ContactForce.txt"], ["map_P1_ContactForce.txt"], EcgPartner) == Err(TypeError)
    ensures ZipPairs(["map_P1_ContactForce.txt"], ["map_P1_ContactForce.txt"], EcgPartner) == ([], [])
  {
    var cf := "map_P1_ContactForce.txt";
    var ecg := "map_P1_ECG_Export.txt";
    ContactForcePartner();
    assert ecg[7] == 'E' && cf[7] == 'C';
    ZipPairsLonePartnerless(cf, ecg, EcgPartner);
  }

  /** The ECG export paired with the contact-force export of map `map`, point 1. */
  lemma ContactForcePartner()
    ensures EcgPartner("map_P1_ContactForce.txt") == Some("map_P1_ECG_Export.txt")
  {
    forall k: nat ensures !OccursAt("1", k, "_P") {
    }
    assert "map" + "_P" + "1" + "_ContactForce.txt" == "map_P1_ContactForce.txt";
    assert "map" + "_P" + "1" + "_ECG_Export.txt" == "map_P1_ECG_Export.txt";
    EcgPartnerOfName("map", "1");
  }

  /** An archive of one name whose partner is another name. */
  lemma ZipPairsLonePartnerless(name: string, ecg: string, partner: string -> Option<string>)
    requires partner(name) == Some(ecg) && ecg != name
    ensures ZipPairsAsWritten([name], [name], partner) == Err(TypeError)
    ensures ZipPairs([name], [name], partner) == ([], [])
  {
    var list := [name];
    assert list[..0] == [] && list[0] == name;
  }

  /** `get_contact_data(filename, start, cols)`: the window reader on space-separated lines. */
  method GetContactData(lines: seq<string>, start: int, cols: seq<int>) returns (r: Result<seq<seq<int>>>)
    ensures r == ContactWindow.ContactMatrix(lines, start, cols, Numbers(' '))
  {
    r := ContactWindow.ReadWindow(lines, start, cols, Numbers(' '));
  }

  /** With the default arguments the matrix has three rows (force, axial angle, lateral angle)
      of at most 50 samples, exactly 50 when the file has at least 208 lines. */
  lemma DefaultContactShape(lines: seq<string>)
    ensures ContactWindow.ContactMatrix(lines, ContactStart, ContactCols, Numbers(' ')).Ok? ==>
      var m := ContactWindow.ContactMatrix(lines, ContactStart, ContactCols, Numbers(' ')).value;
      |m| == 3 && forall c :: 0 <= c < 3 ==> |m[c]| <= 50 && (|lines| >= 208 ==> |m[c]| == 50)
  {
    ContactWindow.ContactMatrixShape(lines, ContactStart, ContactCols, Numbers(' '));
  }

  /** `get_contact_data_from_zipped_txt(zip_file, cf_filename, start, cols)`: the window reader
      with numpy's reader for `sep='\t'`; a name missing from the archive leaves `contact_data`
      unbound at the return. */
  method GetContactDataFromZip(zip: Archive, name: string, start: int, cols: seq<int>) returns (r: Result<seq<seq<int>>>)
    ensures name !in zip.names ==> r == Err(UnboundLocalError)
    ensures name in zip.names ==> r == ContactWindow.ContactMatrix(zip.content(name), start, cols, Numbers('\t'))
    ensures name in zip.names ==> r == ContactWindow.ContactMatrix(zip.content(name), start, cols, Numbers(' '))
  {
    if name !in zip.names {
      return Err(UnboundLocalError);
    }
    r := ContactWindow.ReadWindow(zip.content(name), start, cols, Numbers('\t'));
    TabReadsLikeSpace(zip.content(name), start, cols);
  }

  /** numpy reads a line with `sep='\t'` as with `sep=' '`, so the archive reader and the
      directory reader give the same matrix for the same lines. */
  lemma TabReadsLikeSpace(lines: seq<string>, start: int, cols: seq<int>)
    ensures ContactWindow.ContactMatrix(lines, start, cols, Numbers('\t')) == ContactWindow.ContactMatrix(lines, start, cols, Numbers(' '))
  {
    var w := ContactWindow.Window(lines, start);
    forall s | 0 <= s < |w| ensures Numbers('\t')(w[s]) == Numbers(' ')(w[s]) {
      assert Fields(w[s], '\t') == Words(w[s]) == Fields(w[s], ' ');
    }
    assert Parsed(w, Numbers('\t')) == Parsed(w, Numbers(' '));
  }

  /** `get_ecg_data(filename)`: the six mapping leads, M1 to M3-M4. */
  method GetEcgData(lines: seq<string>) returns (r: Result<seq<seq<int>>>)
    ensures r == Leads.LeadMatrix(lines, MappingChannels)
  {
    var rows := Leads.ReadLeads(lines, MappingChannels);
    if rows.Err? {
      return Err(rows.error);
    }
    return Ok(Transpose(rows.value, |MappingChannels|));
  }

  /** `get_ecg_data_from_zipped_txt(zip_file, ecg_filename)`: the leads of `Mapping_Channels`;
      a name missing from the archive leaves `ecg_array` unbound at the return. */
  method GetEcgDataFromZip(zip: Archive, name: string) returns (r: Result<seq<seq<int>>>)
    ensures name !in zip.names ==> r == Err(UnboundLocalError)
    ensures name in zip.names ==> r == Leads.LeadMatrix(zip.content(name), MappingChannels)
  {
    if name !in zip.names {
      return Err(UnboundLocalError);
    }
    r := GetEcgData(zip.content(name));
  }

  /** Row `k` of an ECG matrix is lead `Mapping_Channels[k]`, taken from the first header column
      of that name; there are six rows of one sample per line after the header. */
  lemma EcgDataRows(lines: seq<string>, k: nat, s: nat)
    requires Leads.LeadMatrix(lines, MappingChannels).Ok? && k < 6 && 4 + s < |lines|
    ensures |Leads.LeadMatrix(lines, MappingChannels).value| == 6
    ensures
      var names := Leads.NormalisedNames(Words(lines[3])).value;
      var c := IndexOf(names, MappingChannels[k]).value;
      var row := ParseNumbers(lines[4 + s], ' ');
      && c < |names| && names[c] == MappingChannels[k] && MappingChannels[k] !in names[..c]
      && c < |row| && Leads.LeadMatrix(lines, MappingChannels).value[k][s] == row[c]
  {
    Leads.LeadMatrixEntries(lines, MappingChannels, k, s);
  }

  /** The name `load_data` expects for the ECG half of a contact-force `.npy` file. */
  function EcgNpyName(npy: string): string {
    ReplaceAll(npy, "_cf_data.npy", "_ecg_data.npy")
  }

  /** The pairs `load_data` loads: each name of `list` the search `_cf_data.npy` matches, with
      its ECG name, when that name is one of `all`. */
  function NpyPairs(list: seq<string>, all: seq<string>): (r: seq<(string, string)>)
    ensures |r| <= |list|
    ensures forall j :: 0 <= j < |r| ==> r[j].0 in list && IsContactNpy(r[j].0) && r[j].1 == EcgNpyName(r[j].0) && r[j].1 in all
  {
    if list == [] then []
    else
      var init := list[..|list| - 1];
      var npy := list[|list| - 1];
      assert forall x <- init :: x in list;
      var front := NpyPairs(init, all);
      if IsContactNpy(npy) && EcgNpyName(npy) in all then front + [(npy, EcgNpyName(npy))] else front
  }

  /** The loop of `load_data` over the `.npy` files, reduced to the pairs it loads. */
  method LoadPairs(npyFiles: seq<string>) returns (pairs: seq<(string, string)>)
    ensures pairs == NpyPairs(npyFiles, npyFiles)
  {
    pairs := [];
    var i := 0;
    while i < |npyFiles|
      invariant 0 <= i <= |npyFiles|
      invariant pairs == NpyPairs(npyFiles[..i], npyFiles)
    {
      assert npyFiles[..i + 1][..i] == npyFiles[..i];
      var npy := npyFiles[i];
      if IsContactNpy(npy) {
        var ecgNpy := EcgNpyName(npy);
        if ecgNpy in npyFiles {
          pairs := pairs + [(npy, ecgNpy)];
        }
      }
      i := i + 1;
    }
    assert npyFiles[..i] == npyFiles;
  }

  /** Every contact-force `.npy` file whose ECG name is present is loaded. */
  lemma {:induction false} NpyPairsComplete(list: seq<string>, all: seq<string>, i: nat)
    requires i < |list| && IsContactNpy(list[i]) && EcgNpyName(list[i]) in all
    ensures (list[i], EcgNpyName(list[i])) in NpyPairs(list, all)
    decreases |list|
  {
    var n := |list| - 1;
    if i < n {
      assert list[..n][i] == list[i];
      NpyPairsComplete(list[..n], all, i);
    }
  }

  /** `<p>_cf_data.npy` is paired with `<p>_ecg_data.npy` when `_cf_data.npy` does not already
      occur earlier in the name. */
  lemma EcgNpyNameOf(p: string)
    requires forall k: nat :: k < |p| ==> !OccursAt(p + "_cf_data.npy", k, "_cf_data.npy")
    ensures IsContactNpy(p + "_cf_data.npy")
    ensures EcgNpyName(p + "_cf_data.npy") == p + "_ecg_data.npy"
  {
    var name := p + "_cf_data.npy";
    assert DotPatternAt(name, |p|, "_cf_data", "npy") by {
      assert name[|p|..|p| + 8] == "_cf_data";
      assert name[|p| + 9..|p| + 12] == "npy";
    }
    ReplaceAfterCleanPrefix(p, "_cf_data.npy", "_cf_data.npy", "_ecg_data.npy");
    assert ReplaceAll("_cf_data.npy", "_cf_data.npy", "_ecg_data.npy") == "_ecg_data.npy" + ReplaceAll([], "_cf_data.npy", "_ecg_data.npy");
  }

  /** The search treats the `.` of `_cf_data.npy` as a wildcard but `str.replace` does not: a
      name the search matches without holding the literal text is paired with itself. */
  lemma NpyWildcardPairsWithItself(name: string)
    requires IsContactNpy(name)
    requires forall k: nat :: !OccursAt(name, k, "_cf_data.npy")
    ensures EcgNpyName(name) == name
    ensures (name, name) in NpyPairs([name], [name])
  {
    assert name + [] == name;
    ReplaceAfterCleanPrefix(name, [], "_cf_data.npy", "_ecg_data.npy");
    assert [name][..0] == [];
  }
}

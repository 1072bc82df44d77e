/** `process2.py`: finding the archives of a study, pairing its exports, reading them, and
    loading every pair into preallocated study arrays. */
module Process2 {
  import opened Errors
  import opened Text
  import opened Table
  import Pairs
  import ContactWindow
  import Leads

  /** `os.path.join(root, name)` for a relative `name`, with `/` as the separator. */
  function Join(root: string, name: string): string {
    if root == [] || root[|root| - 1] == '/' then root + name else root + "/" + name
  }

  /** `joined[-9:]`: the last nine characters, or the whole text when it is shorter. */
  function LastNine(s: string): string {
    if |s| <= 9 then s else s[|s| - 9..]
  }

  predicate EndsWith(s: string, suffix: string) {
    |suffix| <= |s| && s[|s| - |suffix|..] == suffix
  }

  /** The test `joined[-9:] == "extracted"` holds exactly when the directory's own name ends with
      `extracted`: a shorter name would bring the separator into the last nine characters. */
  lemma ExtractedSuffix(root: string, name: string)
    requires name != [] && '/' !in name
    ensures LastNine(Join(root, name)) == "extracted" <==> EndsWith(name, "extracted")
  {
    var joined := Join(root, name);
    var pre := if root == [] || root[|root| - 1] == '/' then root else root + "/";
    assert joined == pre + name;
    if |name| >= 9 {
      if |joined| > 9 {
        assert joined[|joined| - 9..] == name[|name| - 9..];
      }
    } else if pre != [] {
      var j := |pre| - 1;
      assert joined[j] == '/';
      if |joined| > 9 {
        assert LastNine(joined)[8 - |name|] == '/';
      } else {
        assert LastNine(joined)[j] == '/';
      }
      assert "extracted"[8 - |name|] != '/';
    }
  }

  /** The joined paths of the sub-directories `dirs` of `root` that pass the test, in order. */
  function ExtractedIn(root: string, dirs: seq<string>): seq<string> {
    if dirs == [] then []
    else
      var joined := Join(root, dirs[|dirs| - 1]);
      ExtractedIn(root, dirs[..|dirs| - 1]) + if LastNine(joined) == "extracted" then [joined] else []
  }

  /** The directories the walk collects as `zip_dirs`: `walk` lists `(root, dirs)` in the order
      `os.walk` yields them. */
  function ExtractedDirs(walk: seq<(string, seq<string>)>): seq<string> {
    if walk == [] then []
    else
      var (root, dirs) := walk[|walk| - 1];
      ExtractedDirs(walk[..|walk| - 1]) + ExtractedIn(root, dirs)
  }

  /** The names ending with `extracted`, in order: a reference for the test on joined paths. */
  function NamesEndingExtracted(dirs: seq<string>): seq<string> {
    if dirs == [] then []
    else NamesEndingExtracted(dirs[..|dirs| - 1]) + if EndsWith(dirs[|dirs| - 1], "extracted") then [dirs[|dirs| - 1]] else []
  }

  /** Over directory names (non-empty, without `/`), the walk keeps exactly the names ending with
      `extracted`, joined to their root. */
  lemma {:induction false} ExtractedInByName(root: string, dirs: seq<string>)
    requires forall d <- dirs :: d != [] && '/' !in d
    ensures ExtractedIn(root, dirs) == seq(|NamesEndingExtracted(dirs)|, k requires 0 <= k < |NamesEndingExtracted(dirs)| => Join(root, NamesEndingExtracted(dirs)[k]))
    decreases |dirs|
  {
    if dirs != [] {
      var n := |dirs| - 1;
      assert forall d <- dirs[..n] :: d in dirs;
      ExtractedInByName(root, dirs[..n]);
      assert dirs[n] in dirs;
      ExtractedSuffix(root, dirs[n]);
    }
  }

  /** `zip_files`: the `*.zip` glob of each collected directory, concatenated in order. */
  function ZipFiles(zipDirs: seq<string>, globZips: string -> seq<string>): seq<string> {
    if zipDirs == [] then [] else ZipFiles(zipDirs[..|zipDirs| - 1], globZips) + globZips(zipDirs[|zipDirs| - 1])
  }

  /** `get_paths(epdata_dir)`: nothing unless the `Carto` glob finds exactly one entry; then the
      zip files of every walked directory whose path ends with `extracted`. */
  function Paths(cartoDirs: seq<string>, walk: seq<(string, seq<string>)>, globZips: string -> seq<string>): (r: Option<seq<string>>)
    ensures r.Some? <==> |cartoDirs| == 1
  {
    if |cartoDirs| != 1 then None else Some(ZipFiles(ExtractedDirs(walk), globZips))
  }

  /** The inner loop of the walk: the sub-directories of one `root` that pass the test. */
  method CollectExtracted(root: string, dirs: seq<string>) returns (joinedDirs: seq<string>)
    ensures joinedDirs == ExtractedIn(root, dirs)
  {
    joinedDirs := [];
    var j := 0;
    while j < |dirs|
      invariant 0 <= j <= |dirs|
      invariant joinedDirs == ExtractedIn(root, dirs[..j])
    {
      assert dirs[..j + 1][..j] == dirs[..j];
      var joined := Join(root, dirs[j]);
      if LastNine(joined) == "extracted" {
        joinedDirs := joinedDirs + [joined];
      }
      j := j + 1;
    }
    assert dirs[..j] == dirs;
  }

  /** The glob loop over the collected directories. */
  method CollectZips(zipDirs: seq<string>, globZips: string -> seq<string>) returns (zipFiles: seq<string>)
    ensures zipFiles == ZipFiles(zipDirs, globZips)
  {
    zipFiles := [];
    var k := 0;
    while k < |zipDirs|
      invariant 0 <= k <= |zipDirs|
      invariant zipFiles == ZipFiles(zipDirs[..k], globZips)
    {
      assert zipDirs[..k + 1][..k] == zipDirs[..k];
      zipFiles := zipFiles + globZips(zipDirs[k]);
      k := k + 1;
    }
    assert zipDirs[..k] == zipDirs;
  }

  /** `get_paths`: the walk over `(root, dirs)` pairs, then the globs. */
  method GetPaths(cartoDirs: seq<string>, walk: seq<(string, seq<string>)>, globZips: string -> seq<string>) returns (r: Option<seq<string>>)
    ensures r == Paths(cartoDirs, walk, globZips)
  {
    if |cartoDirs| != 1 {
      return None;
    }
    var zipDirs: seq<string> := [];
    var i := 0;
    while i < |walk|
      invariant 0 <= i <= |walk|
      invariant zipDirs == ExtractedDirs(walk[..i])
    {
      assert walk[..i + 1][..i] == walk[..i];
      var joinedDirs := CollectExtracted(walk[i].0, walk[i].1);
      zipDirs := zipDirs + joinedDirs;
      i := i + 1;
    }
    assert walk[..i] == walk;
    var zipFiles := CollectZips(zipDirs, globZips);
    return Some(zipFiles);
  }

  /** The six leads `get_ecg_data` extracts, in output row order. */
  const EcgLeads: seq<string> := ["M1", "M2", "M3", "M4", "M1-M2", "M3-M4"]

  /** A slot of a study array: `np.empty` leaves it holding whatever was in memory until a
      pair's matrix is stored in it. */
  datatype Slot = Unfilled | Filled(block: seq<seq<int>>)

  /** Storing a channels x `n` matrix into a channels x `width` slot: numpy broadcasting accepts
      `n == width`, repeats a single sample across the slot, and raises ValueError otherwise. */
  function Fit(m: seq<seq<int>>, n: nat, width: nat): (r: Result<seq<seq<int>>>)
    requires forall c :: 0 <= c < |m| ==> |m[c]| == n
    ensures r.Ok? <==> n == width || n == 1
    ensures r.Err? ==> r.error == ValueError
    ensures r.Ok? ==> |r.value| == |m| && forall c :: 0 <= c < |m| ==>
      |r.value[c]| == width && forall t :: 0 <= t < width ==> r.value[c][t] == m[c][if n == 1 then 0 else t]
  {
    if n == width then Ok(m)
    else if n == 1 then Ok(seq(|m|, c requires 0 <= c < |m| => seq(width, t => m[c][0])))
    else Err(ValueError)
  }

  /** `cf_array[i] = get_contact_data(cf)`: the contact matrix of a file with the default
      arguments, stored into a 3 x 50 slot. */
  function ContactBlock(lines: seq<string>): (r: Result<seq<seq<int>>>)
    ensures r.Ok? ==> |r.value| == 3 && forall c :: 0 <= c < 3 ==> |r.value[c]| == 50
  {
    match ContactWindow.ContactMatrix(lines, 150, [3, 4, 5], Numbers(' '))
    case Err(e) => Err(e)
    case Ok(m) => Fit(m, |ContactWindow.Window(lines, 150)|, 50)
  }

  /** `ef_array[i] = get_ecg_data(ef)`: the ECG matrix of a file stored into a 6 x 2500 slot. */
  function EcgBlock(lines: seq<string>): (r: Result<seq<seq<int>>>)
    ensures r.Ok? ==> |r.value| == 6 && forall c :: 0 <= c < 6 ==> |r.value[c]| == 2500
  {
    match Leads.LeadMatrix(lines, EcgLeads)
    case Err(e) => Err(e)
    case Ok(m) => Fit(m, Leads.SampleCount(lines), 2500)
  }

  /** The block stored for a contact-force file, `read` giving the lines of a file. */
  function ContactBlockOf(read: string -> seq<string>): string -> Result<seq<seq<int>>> {
    f => ContactBlock(read(f))
  }

  /** The block stored for an ECG export. */
  function EcgBlockOf(read: string -> seq<string>): string -> Result<seq<seq<int>>> {
    f => EcgBlock(read(f))
  }

  /** The two blocks of one pair: the contact file is read first, and its error wins. */
  function PairBlocks(cfBlock: string -> Result<seq<seq<int>>>, efBlock: string -> Result<seq<seq<int>>>, contactFile: string, ecgFile: string): (r: Result<(seq<seq<int>>, seq<seq<int>>)>)
    ensures r.Ok? <==> cfBlock(contactFile).Ok? && efBlock(ecgFile).Ok?
    ensures r.Ok? ==> r.value == (cfBlock(contactFile).value, efBlock(ecgFile).value)
    ensures r.Err? ==> r.error == if cfBlock(contactFile).Err? then cfBlock(contactFile).error else efBlock(ecgFile).error
  {
    match cfBlock(contactFile)
    case Err(e) => Err(e)
    case Ok(cf) =>
      match efBlock(ecgFile)
      case Err(e) => Err(e)
      case Ok(ef) => Ok((cf, ef))
  }

  /** The blocks stored for the first `n` pairs, the first error ending the loop. */
  function StudyBlocks(contactFiles: seq<string>, ecgFiles: seq<string>, cfBlock: string -> Result<seq<seq<int>>>, efBlock: string -> Result<seq<seq<int>>>, n: nat): (r: Result<(seq<seq<seq<int>>>, seq<seq<seq<int>>>)>)
    requires n <= |contactFiles| && n <= |ecgFiles|
    ensures r.Ok? ==> |r.value.0| == n && |r.value.1| == n
    ensures r.Ok? ==> forall i :: 0 <= i < n ==> cfBlock(contactFiles[i]) == Ok(r.value.0[i]) && efBlock(ecgFiles[i]) == Ok(r.value.1[i])
  {
    if n == 0 then Ok(([], []))
    else match StudyBlocks(contactFiles, ecgFiles, cfBlock, efBlock, n - 1)
      case Err(e) => Err(e)
      case Ok((cfs, efs)) =>
        match PairBlocks(cfBlock, efBlock, contactFiles[n - 1], ecgFiles[n - 1])
        case Err(e) => Err(e)
        case Ok((cf, ef)) => Ok((cfs + [cf], efs + [ef]))
  }

  function MinLength(a: seq<string>, b: seq<string>): nat {
    if |a| <= |b| then |a| else |b|
  }

  /** The slots of an array of `total` entries whose first ones hold `blocks`. */
  function Slots(blocks: seq<seq<seq<int>>>, total: nat): seq<Slot> {
    seq(total, k requires 0 <= k < total => if k < |blocks| then Filled(blocks[k]) else Unfilled)
  }

  /** `get_study_data(contact_files, ecg_files)`: the two study arrays, `cfBlock` and `efBlock`
      giving the block stored for a file. */
  function StudyData(contactFiles: seq<string>, ecgFiles: seq<string>, cfBlock: string -> Result<seq<seq<int>>>, efBlock: string -> Result<seq<seq<int>>>): Result<(seq<Slot>, seq<Slot>)> {
    match StudyBlocks(contactFiles, ecgFiles, cfBlock, efBlock, MinLength(contactFiles, ecgFiles))
    case Err(e) => Err(e)
    case Ok((cfs, efs)) => Ok((Slots(cfs, |contactFiles|), Slots(efs, |ecgFiles|)))
  }

  /** Storing one more block: the next slot is filled. */
  lemma SlotsStep(blocks: seq<seq<seq<int>>>, block: seq<seq<int>>, total: nat)
    requires |blocks| < total
    ensures Slots(blocks + [block], total) == Slots(blocks, total)[|blocks| := Filled(block)]
  {
  }

  /** The loop of `get_study_data` over `zip(contact_files, ecg_files)`, writing slot `i` of the
      two preallocated arrays. */
  method GetStudyData(contactFiles: seq<string>, ecgFiles: seq<string>, cfBlock: string -> Result<seq<seq<int>>>, efBlock: string -> Result<seq<seq<int>>>) returns (r: Result<(seq<Slot>, seq<Slot>)>)
    ensures r == StudyData(contactFiles, ecgFiles, cfBlock, efBlock)
  {
    var cfArray := new Slot[|contactFiles|](_ => Unfilled);
    var efArray := new Slot[|ecgFiles|](_ => Unfilled);
    var n := MinLength(contactFiles, ecgFiles);
    ghost var cfs: seq<seq<seq<int>>> := [];
    ghost var efs: seq<seq<seq<int>>> := [];
    var i := 0;
    while i < n
      invariant 0 <= i <= n
      invariant StudyBlocks(contactFiles, ecgFiles, cfBlock, efBlock, i) == Ok((cfs, efs))
      invariant cfArray[..] == Slots(cfs, |contactFiles|)
      invariant efArray[..] == Slots(efs, |ecgFiles|)
    {
      StudyBlocksStep(contactFiles, ecgFiles, cfBlock, efBlock, i, n);
      var pair := PairBlocks(cfBlock, efBlock, contactFiles[i], ecgFiles[i]);
      if pair.Err? {
        return Err(pair.error);
      }
      var (cf, ef) := pair.value;
      SlotsStep(cfs, cf, |contactFiles|);
      SlotsStep(efs, ef, |ecgFiles|);
      cfArray[i] := Filled(cf);
      efArray[i] := Filled(ef);
      cfs := cfs + [cf];
      efs := efs + [ef];
      i := i + 1;
    }
    return Ok((cfArray[..], efArray[..]));
  }

  /** One more pair: both blocks are stored, or the first of them to fail ends the loop. */
  lemma StudyBlocksStep(contactFiles: seq<string>, ecgFiles: seq<string>, cfBlock: string -> Result<seq<seq<int>>>, efBlock: string -> Result<seq<seq<int>>>, i: nat, n: nat)
    requires i < n <= |contactFiles| && n <= |ecgFiles|
    requires StudyBlocks(contactFiles, ecgFiles, cfBlock, efBlock, i).Ok?
    ensures
      var (cfs, efs) := StudyBlocks(contactFiles, ecgFiles, cfBlock, efBlock, i).value;
      var pair := PairBlocks(cfBlock, efBlock, contactFiles[i], ecgFiles[i]);
      && (pair.Err? ==> StudyBlocks(contactFiles, ecgFiles, cfBlock, efBlock, n) == Err(pair.error))
      && (pair.Ok? ==> StudyBlocks(contactFiles, ecgFiles, cfBlock, efBlock, i + 1) == Ok((cfs + [pair.value.0], efs + [pair.value.1])))
  {
    if StudyBlocks(contactFiles, ecgFiles, cfBlock, efBlock, i + 1).Err? {
      StudyBlocksFailed(contactFiles, ecgFiles, cfBlock, efBlock, i + 1, n);
    }
  }

  /** An error at one pair is the error of the whole loop. */
  lemma {:induction false} StudyBlocksFailed(contactFiles: seq<string>, ecgFiles: seq<string>, cfBlock: string -> Result<seq<seq<int>>>, efBlock: string -> Result<seq<seq<int>>>, k: nat, n: nat)
    requires k <= n <= |contactFiles| && n <= |ecgFiles|
    requires StudyBlocks(contactFiles, ecgFiles, cfBlock, efBlock, k).Err?
    ensures StudyBlocks(contactFiles, ecgFiles, cfBlock, efBlock, n) == StudyBlocks(contactFiles, ecgFiles, cfBlock, efBlock, k)
    decreases n - k
  {
    if k < n {
      StudyBlocksFailed(contactFiles, ecgFiles, cfBlock, efBlock, k, n - 1);
    }
  }

  /** The loop fails exactly when one of the first `n` pairs fails, and then with the error of
      the first pair that fails. */
  lemma {:induction false} StudyBlocksFail(contactFiles: seq<string>, ecgFiles: seq<string>, cfBlock: string -> Result<seq<seq<int>>>, efBlock: string -> Result<seq<seq<int>>>, n: nat)
    requires n <= |contactFiles| && n <= |ecgFiles|
    ensures StudyBlocks(contactFiles, ecgFiles, cfBlock, efBlock, n).Err? <==>
      exists i :: 0 <= i < n && PairBlocks(cfBlock, efBlock, contactFiles[i], ecgFiles[i]).Err?
    ensures StudyBlocks(contactFiles, ecgFiles, cfBlock, efBlock, n).Err? ==>
      exists i :: 0 <= i < n && PairBlocks(cfBlock, efBlock, contactFiles[i], ecgFiles[i]).Err? && StudyBlocks(contactFiles, ecgFiles, cfBlock, efBlock, n).error == PairBlocks(cfBlock, efBlock, contactFiles[i], ecgFiles[i]).error && forall j :: 0 <= j < i ==> PairBlocks(cfBlock, efBlock, contactFiles[j], ecgFiles[j]).Ok?
  {
    if n > 0 {
      StudyBlocksFail(contactFiles, ecgFiles, cfBlock, efBlock, n - 1);
    }
  }

  /** Slot `i` of the contact array holds pair `i`'s contact matrix for every `i` below the
      shorter list's length, a 3 x 50 block whose samples are the file's 50 window samples or
      its one sample repeated; the slots past it stay unfilled. The same holds for the ECG array
      with 6 x 2500 blocks. */
  lemma StudyDataSlots(contactFiles: seq<string>, ecgFiles: seq<string>, read: string -> seq<string>, i: nat)
    requires StudyData(contactFiles, ecgFiles, ContactBlockOf(read), EcgBlockOf(read)).Ok?
    ensures |StudyData(contactFiles, ecgFiles, ContactBlockOf(read), EcgBlockOf(read)).value.0| == |contactFiles|
    ensures |StudyData(contactFiles, ecgFiles, ContactBlockOf(read), EcgBlockOf(read)).value.1| == |ecgFiles|
    ensures i < MinLength(contactFiles, ecgFiles) ==>
      var cm := ContactWindow.ContactMatrix(read(contactFiles[i]), 150, [3, 4, 5], Numbers(' '));
      var slot := StudyData(contactFiles, ecgFiles, ContactBlockOf(read), EcgBlockOf(read)).value.0[i];
      && cm.Ok? && slot.Filled? && |slot.block| == 3
      && forall c, t :: 0 <= c < 3 && 0 <= t < 50 ==>
        |cm.value[c]| in {1, 50} && slot.block[c][t] == cm.value[c][if |cm.value[c]| == 1 then 0 else t]
    ensures i < MinLength(contactFiles, ecgFiles) ==>
      var em := Leads.LeadMatrix(read(ecgFiles[i]), EcgLeads);
      var slot := StudyData(contactFiles, ecgFiles, ContactBlockOf(read), EcgBlockOf(read)).value.1[i];
      && em.Ok? && slot.Filled? && |slot.block| == 6
      && forall c, t :: 0 <= c < 6 && 0 <= t < 2500 ==>
        |em.value[c]| in {1, 2500} && slot.block[c][t] == em.value[c][if |em.value[c]| == 1 then 0 else t]
    ensures MinLength(contactFiles, ecgFiles) <= i < |contactFiles| ==> StudyData(contactFiles, ecgFiles, ContactBlockOf(read), EcgBlockOf(read)).value.0[i] == Unfilled
    ensures MinLength(contactFiles, ecgFiles) <= i < |ecgFiles| ==> StudyData(contactFiles, ecgFiles, ContactBlockOf(read), EcgBlockOf(read)).value.1[i] == Unfilled
  {
    if i < MinLength(contactFiles, ecgFiles) {
      var blocks := StudyBlocks(contactFiles, ecgFiles, ContactBlockOf(read), EcgBlockOf(read), MinLength(contactFiles, ecgFiles)).value;
      assert ContactBlock(read(contactFiles[i])) == Ok(blocks.0[i]);
      assert EcgBlock(read(ecgFiles[i])) == Ok(blocks.1[i]);
    }
  }
}

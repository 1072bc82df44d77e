# CartoEGMsReader text-export readers in Dafny

This project models the parsing core of the CartoEGMsReader Python scripts. The scripts read
text exports of a CARTO electro-anatomical mapping study, and of an EP recording system, into
matrices. A file is modelled as its sequence of lines, a data row as a sequence of integers, and
a result as a channels x samples matrix. The model covers these readers:

- the contact-force window reader: a `read_data` flag, a fixed header offset `7 + start`,
  column projection, a `break` after 50 rows;
- the ECG lead selector: the header at line index 3, numbers cut off the header tokens, the first
  column of each requested lead, one sample per later line, in six variants of where the lead
  list comes from;
- the pairing of `<map>_P<point>_ContactForce.txt` files with their
  `<map>_P<point>_ECG_Export.txt` partners, in a directory, in a zip archive, in
  `get_contact_files.py`, and for saved `.npy` files;
- the `key: value` header parser and `[Data]` reader of `simple.py`;
- `make_longer`, the test window's `get_filename`, and its two windowed readers.

Every Python exception a reader can raise is a value of `Errors.Error`. A reader returns
`Result`, so each error path is modelled next to the normal one. Regular expressions are written
out as string functions. File contents, archive name lists, glob and walk results, and the test
"does this file exist" are parameters.

Each script is a module: `CartoUtils`, `Process2`, `EcgWriterSmall`, `Image`, `Simple`,
`ContactFiles` and `TestScript`. `ecg_writer.py` and `ecg_drawer.py` hold identical
`get_ecg_data(filename, ders)` and `make_longer` functions, modelled once in `Leads` and
`Longer`. The other shared algorithms also live in modules of their own:

- `Text`: Python string operations and numpy's `fromstring`;
- `Table`: row projection, fixed-width rows, transpose;
- `Names`: the file-name patterns;
- `Pairs`: the directory pairing loop, shared by both `get_files`;
- `ContactWindow`: the contact-force reader, shared by four functions;
- `Leads`: the ECG lead reader.

Each loop of the source is a `method` with a `while` loop, proved against a function that
states what the loop computes. The properties of that function are lemmas. Loops that
apply a fixed rule take it as a function parameter: the number reader `Numbers(sep)`, the marker
test, the partner rule, the ECG-name test and the header step. The script members pass the
concrete rule.

## Model

| member | source | states |
|---|---|---|
| Text.Words | cartoutils.py:274 | `str.split()`: every word is non-empty and holds no white space |
| Text.Split | simple.py:52 | `str.split(sep)`: at least one piece, exactly one when `sep` is absent, no piece holds `sep` |
| Text.IndexOf | cartoutils.py:278-283 | `list.index`: `None` exactly when absent; otherwise an index holding `x` with no `x` before it |
| Text.IndexOfFirst | cartoutils.py:278 | the first position holding `x` is the one `list.index` returns |
| Text.SplitOnce | simple.py:52 | `split(':', 1)` gives two pieces exactly when the separator occurs |
| Text.RemoveChar | simple.py:53-54 | `replace(".", "")` keeps exactly the characters of the input other than the removed one, and leaves text without it unchanged |
| Text.LeadingNumbers | cartoutils.py:267 | numpy's `fromstring` reads at most one number per field |
| Text.LastOccurrence | cartoutils.py:135 | the last position below a bound where a literal occurs, none after it, and `None` only when there is none |
| Text.LastDotPattern | cartoutils.py:135 | the same for a pattern `before.after` whose unescaped `.` matches any character |
| Text.ReplaceAfterCleanPrefix | cartoutils.py:402 | `str.replace` leaves a prefix without an occurrence unchanged |
| Table.PyIndex | cartoutils.py:202 | a Python index into a row of `n` entries is valid exactly for `-n <= k < n` and lands inside the row |
| Table.Take | cartoutils.py:202 | `np.take(row, cols)`: fails with IndexError exactly when some index is invalid; otherwise entry `k` is the row's entry at `cols[k]` |
| Table.SelectedRows | cartoutils.py:304-307 | the projection of every row: fails with IndexError exactly when some row fails; otherwise row `s` is the projection of row `s` |
| Table.Parsed | cartoutils.py:305 | one parsed row per line |
| Table.ParsedFromAt | cartoutils.py:305 | row `i - from` of the lines from `from` on is line `i` parsed |
| Table.ParsedSnoc | cartoutils.py:305 | one more line adds its parsed row at the end |
| Table.SelectedRowsSnoc | cartoutils.py:307 | one more row adds its projection, or fails the whole |
| Table.SelectedRowsBadRow | cartoutils.py:306 | one row too short for an index fails the whole with IndexError |
| Table.SelectedRowsBadLine | cartoutils.py:305-306 | one line too short for an index fails the read of all the lines |
| Table.FixedWidthRows | simple.py:79 | `np.append` into a `width`-column array succeeds only with rows of `width` entries |
| Table.FixedWidthRowsBadRow | simple.py:79 | one row of another width raises ValueError |
| Table.Transpose | cartoutils.py:210 | `np.transpose`: `width` rows of one entry per source row, entry `[c][s]` is source entry `[s][c]` |
| Table.ProjectedEntry | cartoutils.py:202-210 | entry `[c][s]` of the transposed projection is entry `cols[c]` (Python indexing) of source row `s` |
| Names.ContactForceGroups | cartoutils.py:135 | the greedy regex `(.*)_P(.*)_ContactForce.txt` matches exactly when `_P` ends before some `_ContactForce?txt`; group 1 ends at the last `_P` before the last such match and the groups rebuild the name |
| Names.DotSearch | ecg_writer_small.py:27 | `re.search` of `before.after` (`(.*)_ECG_Export.txt` here, `_cf_data.npy` at cartoutils.py line 400) succeeds exactly when `before`, any character and `after` occur in a row |
| Names.SplitWithout | process2.py:41 | `split('\\')` of text without a backslash is the text alone |
| Names.SplitAtFirst | process2.py:41 | the first piece of a split ends at the first separator and the rest is the split of what follows |
| Names.MapNameBetweenBackslashes | process2.py:41 | `split('\\')[1]` fails exactly when there is no backslash, and otherwise is the text between the first backslash and the next |
| Names.ContactForceGroupsOfName | cartoutils.py:167-172 | for `<prefix>_P<point>_ContactForce.txt` with no `_P` in the point, the groups are the prefix and the point |
| Names.EcgPartnerOfName | cartoutils.py:173 | the partner of `<prefix>_P<point>_ContactForce.txt` is `<prefix>_P<point>_ECG_Export.txt` |
| Pairs.DirectoryPartner | process2.py:40-43 | AttributeError when the pattern fails, IndexError when group 1 has no backslash, otherwise `search_dir\<map>_P<point>_ECG_Export.txt` |
| Pairs.DirectoryPartnerOfName | process2.py:40-43 | for `<dir>\<map>_P<point>_ContactForce.txt` the partner is `search_dir\<map>_P<point>_ECG_Export.txt` |
| Pairs.Partners | process2.py:33-52 | the two lists have equal length, at most one entry per glob result |
| Pairs.PartnersFail | process2.py:38-43 | the pairing fails exactly when the name rule fails on a considered result, and then with that result's error |
| Pairs.PartnersSound | process2.py:44-47 | every kept pair is a considered glob result and its partner, which the glob finds |
| Pairs.PairFiles | process2.py:32-52 | the loop of `get_files` computes `Partners` |
| Pairs.PartnersFailed | process2.py:40-41 | the first error stops the loop: later names do not change the result |
| Pairs.PartnersComplete | process2.py:44-46 | a considered result whose partner exists is kept, with its partner |
| Pairs.PartnersAppend | process2.py:38 | without a limit, the pairs of a concatenation are the pairs of its parts, in glob order |
| Pairs.PartnersLimit | process2.py:39 | `lim <= 0` keeps nothing; a positive `lim` keeps the pairs of the first `lim` results |
| CartoUtils.GetFiles | cartoutils.py:120-147 | `get_files` is the shared directory pairing with the `search_dir` partner rule |
| CartoUtils.ZipPairs | cartoutils.py:166-177 | equal-length lists, each contact-force name from the list with its partner, which is in the archive |
| CartoUtils.ZipPairsAsWritten | cartoutils.py:166-179 | fails with TypeError exactly when a contact-force name's partner is missing; otherwise the corrected pairs |
| CartoUtils.GetFilesFromZip | cartoutils.py:150-182 | a non-zip file gives two empty lists; an archive gives the as-written pairing of its name list |
| CartoUtils.CollectZipPairs | cartoutils.py:166-179 | the loop over `filename_list` computes the as-written pairing |
| CartoUtils.ZipPairsFailed | cartoutils.py:179 | once a prefix of the name list raises, the whole list does |
| CartoUtils.ZipPairsComplete | cartoutils.py:174-176 | every contact-force name whose partner is in the archive is paired |
| CartoUtils.ZipPairsAppend | cartoutils.py:166 | pairs come out in name-list order: the pairs of a concatenation are the pairs of its parts |
| CartoUtils.GetFilesFromZipMissingPartner | cartoutils.py:178-179 | an archive holding only `map_P1_ContactForce.txt` raises TypeError; the corrected pairing gives two empty lists |
| CartoUtils.ContactForcePartner | cartoutils.py:167-173 | the partner of `map_P1_ContactForce.txt` is `map_P1_ECG_Export.txt` |
| CartoUtils.ZipPairsLonePartnerless | cartoutils.py:174-179 | a one-name archive whose partner is another name raises, and the corrected pairing keeps nothing |
| CartoUtils.GetContactData | cartoutils.py:185-210 | `get_contact_data` is the window reader on space-separated lines |
| CartoUtils.DefaultContactShape | cartoutils.py:192 | with the defaults: three rows of at most 50 samples, exactly 50 from 208 lines on |
| CartoUtils.GetContactDataFromZip | cartoutils.py:213-240 | a missing member raises UnboundLocalError; otherwise the window reader with numpy's `sep='\t'` reading, which gives the same matrix as `sep=' '` |
| CartoUtils.TabReadsLikeSpace | cartoutils.py:232 | numpy reads a line with `sep='\t'` as with `sep=' '`, so the archive and directory contact readers agree on the same lines |
| CartoUtils.GetEcgData | cartoutils.py:243-285 | `get_ecg_data` is the lead reader for M1, M2, M3, M4, M1-M2, M3-M4 |
| CartoUtils.GetEcgDataFromZip | cartoutils.py:288-327 | a missing member raises UnboundLocalError; otherwise the lead reader for `Mapping_Channels` |
| CartoUtils.EcgDataRows | cartoutils.py:301-327 | six rows, row `k` from the first header column named `Mapping_Channels[k]`, one sample per line after the header |
| CartoUtils.NpyPairs | cartoutils.py:398-407 | every loaded pair is a listed `_cf_data.npy` match and its `_ecg_data.npy` name, which is listed too |
| CartoUtils.LoadPairs | cartoutils.py:393-409 | the loop of `load_data` loads the pairs of `NpyPairs` |
| CartoUtils.NpyPairsComplete | cartoutils.py:401-405 | every contact-force `.npy` name whose ECG name is listed is loaded |
| CartoUtils.EcgNpyNameOf | cartoutils.py:400-402 | `<p>_cf_data.npy` matches and its ECG name is `<p>_ecg_data.npy` |
| CartoUtils.NpyWildcardPairsWithItself | cartoutils.py:400-403 | a name matched only through the wildcard `.` is unchanged by `replace`, so it is paired with itself |
| ContactWindow.WindowSlice | cartoutils.py:199-208 | the lines read are lines `8 + start` up to `57 + start`, cut at the end of the file |
| ContactWindow.WindowStops | cartoutils.py:207-208 | lines after the `break` do not change the window |
| ContactWindow.WindowPrefix | cartoutils.py:199 | reading fewer lines gives a prefix of the window |
| ContactWindow.ContactMatrix | cartoutils.py:210 | one row per requested column, one entry per line of the window |
| ContactWindow.WindowStep | cartoutils.py:200-205 | one more line joins the window exactly when it lies inside it |
| ContactWindow.KeepStep | cartoutils.py:200-203 | a line inside the window appends its projection |
| ContactWindow.SkipStep | cartoutils.py:200 | a line outside the window leaves the rows unchanged |
| ContactWindow.ContactMatrixOfRows | cartoutils.py:203-210 | rows read from the whole window, transposed, are the matrix |
| ContactWindow.RowFails | cartoutils.py:202 | a window line too short for a column fails the read with IndexError |
| ContactWindow.ReadWindow | cartoutils.py:196-210 | the loop, with its flag and `break`, computes `ContactMatrix` |
| ContactWindow.ContactMatrixShape | cartoutils.py:192-208 | one row per column, at most 50 samples each; exactly 50 when `start >= -7` and the file has `58 + start` lines, none when `start < -7` |
| ContactWindow.ContactMatrixEntries | cartoutils.py:201-210 | entry `[c][s]` is number `cols[c]` of line `8 + start + s` |
| ContactWindow.WindowAt | cartoutils.py:200-205 | window position `s` is line `8 + start + s` |
| ContactWindow.WindowHas | cartoutils.py:200-205 | every line inside the window is in it, at position `i - 8 - start` |
| ContactWindow.ContactMatrixFails | cartoutils.py:202 | the read fails exactly when some window line is too short for a column, and then with IndexError |
| ContactWindow.ContactMatrixIgnoresHeader | cartoutils.py:204-205 | the header lines before the window do not affect the result |
| Leads.ChannelName | cartoutils.py:276-277 | `(.*)\(.` fails exactly when no `(` has a character after it; otherwise the text before the last such `(` |
| Leads.ChannelNameOfToken | cartoutils.py:276-277 | `<name>(<number>)` normalises to `<name>` |
| Leads.NormalisedNames | cartoutils.py:275-277 | fails with AttributeError exactly when some token does not normalise; otherwise each token's name, in order |
| Leads.NormaliseNames | cartoutils.py:318-320 | the in-place loop over the header tokens computes `NormalisedNames` |
| Leads.LeadIndices | cartoutils.py:324-325 | ValueError exactly when some lead is absent; otherwise index `k` is the first column named `leads[k]` |
| Leads.FindLeads | cartoutils.py:324-325 | the loop filling `channel_indexes` computes `LeadIndices` |
| Leads.HeaderIndices | cartoutils.py:310-325 | one column per requested lead |
| Leads.LeadRows | cartoutils.py:302-307 | one row per line after the header, one entry per lead |
| Leads.RowsFromHeader | cartoutils.py:302-325 | one row per line after the header line, one entry per lead |
| Leads.LeadRowsAt | cartoutils.py:302-325 | past the preamble, the header's error, or the projection of every later line |
| Leads.ReadLeads | cartoutils.py:300-327 | the loop, with its `read_data` flag, computes `LeadRows` |
| Leads.LeadRowStep | cartoutils.py:304-307 | a line after the header appends its projection |
| Leads.LeadRowFails | cartoutils.py:306 | a line too short for a lead column fails the read with IndexError |
| Leads.LeadRowsAfterHeader | cartoutils.py:304-307 | past a header naming every lead, the rows are the projections of the later lines |
| Leads.LeadMatrix | cartoutils.py:327 | one row per lead, one sample per line after the header |
| Leads.LeadMatrixEntries | cartoutils.py:304-327 | entry `[k][s]` is line `4 + s`'s number at the first header column named `leads[k]` |
| Leads.LeadMatrixErrors | cartoutils.py:304-325 | under four lines gives empty rows; a bad header token raises AttributeError, an absent lead ValueError; no other error than these and IndexError |
| Leads.LeadRowsIgnorePreamble | cartoutils.py:310 | lines 0 to 2 are never read |
| Leads.DispatchedLeads | ecg_writer.py:13-20 | a tuple gives its items in order, a string gives itself, any other type nothing |
| Leads.DispatchedMatrix | ecg_writer.py:10-39 | other types fail (AttributeError from the header, else UnboundLocalError); otherwise the lead reader; a tuple gives one row per item, a string one row |
| Leads.ReadDispatched | ecg_writer.py:10-39 | `get_ecg_data(filename, ders)` fails exactly when `DispatchedMatrix` does, with its error, and otherwise returns that matrix with `ders` unchanged |
| Longer.Samples | ecg_writer.py:47 | each recorded value becomes a visible sample |
| Longer.Values | ecg_writer.py:47 | the inverse of `Samples` on visible samples |
| Longer.LongerRow | ecg_writer.py:46-53 | succeeds exactly for a 2500-sample lead, with 10000 samples; ValueError otherwise |
| Longer.LongerRows | ecg_writer.py:44-53 | succeeds exactly when every lead has 2500 samples, and row `k` is lead `k` made longer |
| Longer.MakeLonger | ecg_writer.py:43-54 | the loop computes `LongerRows` and returns the lead names unchanged |
| Longer.LongerRowsFailed | ecg_writer.py:48 | one lead of the wrong length fails the whole array |
| Longer.MultipliedRow | ecg_writer.py:47 | with `multiply`, sample `j` is recorded sample `j % 2500` |
| Longer.PaddedRow | ecg_writer.py:50-52 | without it: the recording, then 7499 hidden samples and a final 0 |
| Longer.LongerRowsRecover | ecg_writer.py:45-53 | the first 2500 samples of every row give back the recorded lead |
| EcgWriterSmall.LimitedEcgNames | ecg_writer_small.py:26-30 | at most one name per input name, none for a limit of zero or less |
| EcgWriterSmall.LimitedEcgNamesKept | ecg_writer_small.py:27-30 | only ECG exports from the list are kept, and at most `limit` of them |
| EcgWriterSmall.LimitedEcgNamesPrefix | ecg_writer_small.py:28 | the kept names are the first `limit` ECG exports, in list order |
| EcgWriterSmall.LimitedEcgNamesStep | ecg_writer_small.py:28-30 | one more name is kept exactly when it is an ECG export and fewer than `limit` are kept |
| EcgWriterSmall.GetFilesFromZip | ecg_writer_small.py:12-31 | a non-zip file gives no names; an archive gives `LimitedEcgNames` of its list |
| EcgWriterSmall.GetFilesFromZipDefault | ecg_writer_small.py:12-31 | with the default `limit = 3`: at most three names, each an ECG export from the archive, and `LimitedEcgNames` of its list |
| EcgWriterSmall.CollectEcgNames | ecg_writer_small.py:26-30 | the loop with its `count` computes `LimitedEcgNames` |
| EcgWriterSmall.GetEcgDataFromZip | ecg_writer_small.py:35-63 | a missing member raises UnboundLocalError; otherwise the dispatched lead matrix with the leads and the name |
| Image.IteratedLeads | image.py:10-11 | TypeError exactly when `ders` cannot be iterated; a tuple gives its items, a string its characters one by one |
| Image.ImageMatrix | image.py:9-30 | TypeError when `ders` cannot be iterated; otherwise the lead reader over the iterated leads |
| Image.GetEcgData | image.py:6-30 | the reader computes `ImageMatrix` and returns `ders` unchanged |
| Image.ImageMatchesDispatch | image.py:10-13 | for a tuple or a one-character string, this reader agrees with the tuple/str reader |
| ContactFiles.FileNames | get_contact_files.py:9-12 | AttributeError when the pattern fails, IndexError without a backslash, otherwise `[<map>_P<point>_ECG_Export.txt, <map>_P<point>_ContactForce.txt]` |
| ContactFiles.FileNamesMatchPartner | get_contact_files.py:9-12 | the ECG name is the one `get_files` looks for, without the directory, and the errors agree |
| ContactFiles.FileList | get_contact_files.py:7-12 | fails exactly when some entry fails; otherwise one entry per glob result, in glob order, with no existence check |
| ContactFiles.Transposed | get_contact_files.py:13 | row 0 holds the ECG names and row 1 the contact-force names; an empty list stays empty |
| ContactFiles.GetContactFiles | get_contact_files.py:6-13 | the error of `FileList`, or its entries transposed |
| ContactFiles.CollectFileList | get_contact_files.py:7-12 | the loop computes `FileList` |
| ContactFiles.FileListFailed | get_contact_files.py:9-10 | the first failing glob result decides the error |
| ContactFiles.ContactFilesOfNames | get_contact_files.py:10-12 | for `<dir>\<map>_P<point>_ContactForce.txt` the entry is `[<map>_P<point>_ECG_Export.txt, <map>_P<point>_ContactForce.txt]` |
| Process2.ExtractedSuffix | process2.py:19-20 | `joined[-9:] == "extracted"` holds exactly when the directory's own name ends with `extracted` |
| Process2.ExtractedInByName | process2.py:18-21 | the kept paths are the joined names ending with `extracted`, in order |
| Process2.Paths | process2.py:9-29 | a result exactly when the `Carto` glob finds one entry |
| Process2.CollectExtracted | process2.py:18-21 | the inner walk loop computes `ExtractedIn` |
| Process2.CollectZips | process2.py:24-26 | the glob loop concatenates each directory's zips in order |
| Process2.GetPaths | process2.py:7-29 | the loops compute `Paths` |
| Process2.Fit | process2.py:119-120 | storing into a slot succeeds exactly when the width matches or is 1 (broadcast), ValueError otherwise |
| Process2.ContactBlock | process2.py:114-119 | a stored contact block is 3 x 50 |
| Process2.EcgBlock | process2.py:115-120 | a stored ECG block is 6 x 2500 |
| Process2.PairBlocks | process2.py:119-120 | both blocks, or the contact file's error first, then the ECG file's |
| Process2.StudyBlocks | process2.py:117-121 | block `i` of each array is pair `i`'s block |
| Process2.SlotsStep | process2.py:119-121 | storing block `i` fills slot `i` |
| Process2.GetStudyData | process2.py:113-122 | the loop computes `StudyData` |
| Process2.StudyBlocksStep | process2.py:117-121 | one more pair stores both blocks or ends the loop with the first error |
| Process2.StudyBlocksFailed | process2.py:119-120 | an error at one pair is the error of the whole loop |
| Process2.StudyBlocksFail | process2.py:117-121 | the loop fails exactly when some pair fails, and then with the first failing pair's error |
| Process2.StudyDataSlots | process2.py:114-122 | arrays of `len(contact_files)` and `len(ecg_files)` slots; slot `i` holds pair `i`'s blocks below the shorter length and stays unfilled past it |
| Simple.ChannelRecord | simple.py:50 | a channel record has the six keys, with the channel number |
| Simple.InitialHeader | simple.py:9-32 | the initial dictionary has an empty `channels_exported` and one empty channel record |
| Simple.NormalisedValue | simple.py:54-59 | the stripped value with spaces as `_` and no dots, a number exactly when `int()` accepts it |
| Simple.NormalisedKeyShape | simple.py:53 | a normalised key has no space, no dot and no upper-case letter |
| Simple.AppendChannel | simple.py:50 | KeyError without `channel_info`, AttributeError when a value replaced it; otherwise one more record and nothing else changed |
| Simple.StoreInChannel | simple.py:64 | the store succeeds exactly for a valid Python index into the record list; KeyError exactly without the key, otherwise IndexError or TypeError |
| Simple.HeaderStep | simple.py:41-64 | a line never removes a key; KeyError only without `channel_info` |
| Simple.HeaderStepCases | simple.py:43-64 | what each kind of header line does to the dictionary and `current_channel` |
| Simple.HeaderFoldKeys | simple.py:40-64 | the header loop keeps every initial key, so its lookups never raise KeyError |
| Simple.MarkerIndex | simple.py:41-42 | the first `[Data]` line, or none |
| Simple.HeaderLines | simple.py:40-42 | the header loop reads a prefix free of markers, stopping at the first marker |
| Simple.HeaderLinesStopAtMarker | simple.py:41-42 | lines after the first marker never reach the header loop |
| Simple.HeaderFoldSkips | simple.py:43-44 | a line every pass leaves unchanged can be dropped |
| Simple.BlankLinesSkipped | simple.py:43-44 | blank and `[Header]` lines can be dropped |
| Simple.ChannelCount | simple.py:66-70 | `np.empty((0, n))` needs a non-negative number: KeyError without the key, TypeError for text, ValueError when negative |
| Simple.ScanStep | simple.py:72-81 | a pass adds the line as a row, or no row |
| Simple.ScanOf | simple.py:71-81 | at most one row per line |
| Simple.ChannelMatrix | simple.py:70-84 | ValueError for a row of the wrong width; otherwise `n` rows of one sample per data line |
| Simple.MarkerOfPrefix | simple.py:41 | the first marker of a prefix is the first marker of the whole |
| Simple.ScanSnoc | simple.py:71 | reading one more line is one more pass |
| Simple.PhaseBefore | simple.py:72-75 | no row is read before the first marker |
| Simple.DataLinesBound | simple.py:80-81 | at most 15001 rows, none from line 0 |
| Simple.DataLinesSingleMarker | simple.py:72-81 | with one marker, the rows are the lines after it up to index 15001 |
| Simple.SingleMarkerStep | simple.py:75-81 | after the single marker, a line is a row up to index 15001 and nothing after |
| Simple.StoppedStays | simple.py:80-81 | after the `break` nothing changes |
| Simple.DataLinesPrefix | simple.py:71-81 | reading fewer lines gives a prefix of the rows |
| Simple.DataLinesAfterMarker | simple.py:72-79 | every row comes after the first marker and is not a marker |
| Simple.BadRowFails | simple.py:77-79 | a data row of the wrong width raises ValueError |
| Simple.MarkerLine | simple.py:72-74 | a marker line sets `count` and adds no row |
| Simple.IgnoredLine | simple.py:75 | a line before the first marker is ignored |
| Simple.RowLine | simple.py:75-81 | a later non-marker line is the next row, and the loop breaks after it past index 15000 |
| Simple.ReadData | simple.py:69-81 | the data loop computes `ChannelMatrix` |
| Simple.ChannelMatrixOfRows | simple.py:79-84 | rows of the right width from every data line, transposed, are the matrix |
| Simple.ReadHeaderPart | simple.py:39-64 | the header loop folds `HeaderStep` over the lines before the first marker |
| Simple.GetChannels | simple.py:6-84 | `get_channels` computes `Channels` |
| Simple.HeaderFoldSnoc | simple.py:40 | one more line is one more step |
| Simple.HeaderLinesAt | simple.py:40-42 | the header loop reads exactly the lines before the first marker |
| Simple.HeaderFoldStops | simple.py:40-64 | an error before the first marker is the error of the header loop |
| Simple.HeaderFoldFailed | simple.py:40-64 | an error ends the header loop |
| Simple.KeyValueLine | simple.py:52-61 | before any channel, `key: value` stores the normalised value under the normalised key |
| TestScript.LastIndex | test.py:27-29 | the last index holding `c`, with none after it, or `None` when `c` is absent |
| TestScript.FilenameAsWritten | test.py:30 | the result is shorter than any non-empty path |
| TestScript.GetFilename | test.py:25-30 | the character loop computes `FilenameAsWritten` |
| TestScript.BaseName | test.py:25-30 | the longest `/`-free suffix, which is the whole path or follows a `/` |
| TestScript.BaseNameUnique | test.py:25-30 | that suffix is unique |
| TestScript.FilenameAsWrittenCases | test.py:26-30 | as written: the base name when the path has a `/` or is empty, otherwise the path without its first character |
| TestScript.FilenameWithoutDirectory | test.py:26-30 | `get_filename("a.txt")` is `".txt"`, the base name is `"a.txt"` |
| TestScript.LastMarker | test.py:43-45 | the last `[Data]` line, with none after it, or none at all |
| TestScript.WindowLines | test.py:38-45 | at most one read line per line |
| TestScript.EpMatrix | test.py:36-46 | ValueError for a row not of 28 numbers; otherwise 28 rows of one sample per read line |
| TestScript.WindowStep | test.py:39-45 | a line is read exactly when the window is open, and a marker becomes `start` |
| TestScript.WindowLinesPrefix | test.py:38-41 | reading fewer lines gives a prefix of the read lines |
| TestScript.EpBadRow | test.py:40-41 | a read line of the wrong width raises ValueError |
| TestScript.ReadEpWindow | test.py:35-46 | the loop, with `data` and `start`, computes `EpMatrix` |
| TestScript.GetDataEP | test.py:32-46 | `get_dataEP` on comma-separated lines after `[Data]` |
| TestScript.WindowLinesSingleMarker | test.py:39-45 | with one marker at `d`, the lines read are those after it, fewer than `window` past it (lines `d + 1` to `d + 9999` in `get_dataEP`) |
| TestScript.WindowLinesBeforeMarker | test.py:39 | without a marker nothing is read |
| TestScript.LastMarkerAt | test.py:43-44 | a marker with none after it is the last one |
| TestScript.EpSingleMarkerEntries | test.py:39-46 | with one marker, at most 9999 samples per channel, entry `[c][s]` from line `d + 1 + s` |
| TestScript.CartoLines | test.py:56-62 | at most 10000 lines are read |
| TestScript.CartoMatrix | test.py:53-64 | ValueError for a row not of 79 numbers; otherwise 79 rows of one sample per read line |
| TestScript.CartoLinesPrefix | test.py:55-62 | before pass `i`, the lines read are lines 4 to `i`, up to index 10003 |
| TestScript.CartoBadRow | test.py:57-58 | a read line of the wrong width raises ValueError |
| TestScript.ReadCartoWindow | test.py:51-64 | the loop computes `CartoMatrix`, and `channel_names` becomes the raw tokens of line 3 when there is one |
| TestScript.GetDataCarto | test.py:48-64 | `get_dataCarto` on space-separated lines |
| TestScript.CartoEntries | test.py:56-64 | at most 10000 samples per channel, entry `[c][s]` from line `4 + s` |

## Left out

- File, zip and directory access (`open`, `ZipFile`, `is_zipfile`, `glob`, `os.walk`): file contents, name lists, glob results and existence tests are parameters.
- `readlines`, `splitlines` and `decode('utf8')`: a file is its sequence of lines. No reader depends on line terminators, because every parse strips or splits on white space.
- Floating point: contact-force values (`dtype=float`) are integers here. `make_longer`'s NaN padding is a `Hidden` sample.
- Text.ParseNumbers: numpy's `fromstring` is modelled on decimal integers with an optional sign, read up to the first field that does not parse. Exponents, hexadecimal and numpy's deprecation warning are not modelled.
- Unicode: `str.split()` and `strip()` treat the ASCII white space characters as space, and `lower()` folds ASCII letters only.
- Names.DotSearch, Names.ContactForceGroups and Text.LastDotPattern model the file-name patterns for names without line breaks. There every unescaped `.` and every `(.*)` matches any character. Python's `.` does not match `\n`, and these members do not model names holding one.
- `clean_zip`, `zip_to_npy` and `merge_npy` are left out. They write archives and `.npy` files, and the model has no file output.
- `get_study_data_from_zip`: it combines `get_files_from_zip` with the two zip readers, all three modelled, and adds progress bars and `np.append` into float arrays.
- `get_zip_files_paths`: a single glob, nothing to model.
- `cartoutils.get_paths` and `cartoutils.get_study_data`: identical to the `process2.py` functions and modelled there.
- `process2.py`'s `get_files`, `get_contact_data` and `get_ecg_data` (lines 32-110): identical to the directory versions in `cartoutils.py`. They are modelled once, by `Pairs.PairFiles`, `ContactWindow.ReadWindow` and `Leads.ReadLeads`, and `Process2.GetStudyData` reads its blocks through them.
- `load_data`: modelled for the pairs it loads. `np.load` and the appends of the loaded arrays are left out.
- Plotting, annotation, the Tk window and the script code at module level are left out. They are presentation and user interface.
- Printed messages are left out. The only output that changes behaviour is the `str + Match` concatenation in `get_files_from_zip`, which is modelled as the TypeError it raises.
- `np.empty` contents: an unwritten slot of `get_study_data` is `Unfilled`, not the memory numpy leaves there.
- Process2.Fit: numpy broadcasting is modelled for matrices whose rows share one width. Other shapes are left out.
- TestScript.GetDataCarto: `channel_names` is a module global. It is modelled as a value passed in and returned.
- Each reader loop takes its fixed rule (the number reader, the marker test, the partner rule, the ECG-name test, the header step) as a function parameter. The script-level members supply the concrete rule, so each script's behaviour is still fully stated.

## Findings

| source | as written | input that shows it | evidently intended | confidence | as-written member | corrected member |
|---|---|---|---|---|---|---|
| cartoutils.py:178-179 | a contact-force file whose ECG partner is not in the archive is reported with `"..." + cf_file`, which adds a `re.Match` to a `str` and raises TypeError | an archive holding `map_P1_ContactForce.txt` but not `map_P1_ECG_Export.txt` | print a message and skip the file, as `get_files` does | high, not executed | CartoUtils.ZipPairsAsWritten | CartoUtils.ZipPairs |
| test.py:26-30 | `pos` starts at 0, so without a `/` the slice starts at index 1 | `get_filename("a.txt")` gives `".txt"` | the base name `"a.txt"` | high, not executed | TestScript.FilenameWithoutDirectory | TestScript.BaseName |

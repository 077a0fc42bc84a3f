# Photo date changer — a Dafny model of its core

The photo date changer rewrites the dates of the photos in a folder. It
gathers the regular files of the folder (optionally walking it
recursively) and sorts them. It asks for confirmation, then gives every
file a target date and time. The target comes from one of two policies:

- **increment**: a base time plus `idx * increment_seconds`, or the base
  itself with `no_increment`;
- **align-earliest**: every file's original time shifted so that the
  earliest file lands on the base.

For each file it then:

- writes the target into the `DateTimeOriginal`, `DateTimeDigitized`
  and `DateTime` EXIF tags when the name ends in `.jpg`/`.jpeg`;
- sets the file's access and modification times with `os.utime`;
- reports progress.

A cancellation flag is polled before the run starts and before every
file. A dry run only logs what it would do.

The model covers `OperationRunner.run` and the helpers it calls:

- gathering files (`gather_files`);
- reading a file's original time (`get_original_time`, `get_exif_datetime`, `parse_exif_datetime_str`);
- writing the EXIF date and the file timestamps (`update_exif_date`, `update_file_timestamp`).

Modules, one per file:

- `Calendar` (calendar.dfy): proleptic Gregorian dates as seconds since
  0001-01-01 00:00:00, bounded by what Python's `datetime` can hold. A
  target outside that range is the `OverflowError` that `run` raises.
- `DateTimeText` (datetime_text.dfy): the `"%Y:%m:%d %H:%M:%S"` text
  form. `Format` stands for `strftime`. `Parse` stands for `strptime`,
  with its one- or two-digit fields, its whitespace run and its range
  checks.
- `Paths` (paths.dfy): lower-casing, `os.path.basename`,
  `os.path.join`, and the `.jpg`/`.jpeg` test.
- `Sorting` (sorting.dfy): a stable sort by key. It is proved sorted, a
  permutation and stable, and the only such arrangement, so it is
  exactly Python's `list.sort`.
- `Os` (os_model.dfy): the world `run` acts on.
  - `FileSystem` is a class: a map from paths to directories, regular
    files (mtime, atime and decoded EXIF tags) and other entries, plus
    the sets of paths whose save or `os.utime` the system refuses.
  - `Sink` is a class that collects the events passed to `log_fn` and
    the pairs passed to `progress_fn`.
- `ExifUtils` (exif_utils.dfy) and `FileOps` (file_ops.dfy): the two
  helper classes.
  - Each update is a method on the `FileSystem` and `Sink` objects.
  - Each method is proved equal to a function of the old state
    (`ExifAfter`, `TimestampAfter`).
- `Runner` (runner.dfy): `run` as the method `Run`, proved equal to the
  reference function `RunSpec`.
  - The two loops of the source differ only in how the target is
    computed. Both are one loop, `ApplyBatch`, over precomputed
    `Targets`.
- `RunProperties` (run_properties.dfy): what `run` promises, proved
  about `RunSpec`.

The inputs `run` gets from outside become parameters:

- `walk` is what `os.walk` yields;
- `confirmed` is the answer of `confirm_fn` or of `input`;
- `cancel` holds the successive readings of the cancellation flag.
  Reading 0 is the check before the start, reading `i + 1` the check
  before file `i`, and readings past its end are unset.

## Model

| member | source | states |
|---|---|---|
| `Calendar.ToSeconds` | photo_date_changer/exif_utils.py:12 | a valid date maps to an instant within `datetime`'s range whose second-of-day is `hour*3600 + minute*60 + second`; order and inverse are stated by `ToSecondsOrder` and `FromToSeconds` |
| `Calendar.ToSecondsOrder` | photo_date_changer/runner.py:51-79 | one valid date is before another exactly when its instant is smaller, and two valid dates are equal exactly when their instants are, so comparing instants compares `datetime` values |
| `Calendar.FromToSeconds` | photo_date_changer/exif_utils.py:41 | converting a valid date to its instant and back gives the same date |
| `Calendar.FromSeconds` | photo_date_changer/exif_utils.py:41 | every instant in range has a valid calendar date, and converting that date back gives the same instant |
| `Paths.Lower` | photo_date_changer/runner.py:47 | lower-casing keeps the length and lowers each character in place |
| `Paths.Basename` | photo_date_changer/runner.py:47 | the base name holds no `/`, is a suffix of the path, and is either the whole path or the part after its last `/` |
| `Paths.IsJpegName` | photo_date_changer/runner.py:89 | the case-insensitive `.jpg`/`.jpeg` suffix test; `OriginalTimeFallsBackToMtime` and `FileAfterEffect` state what it decides: EXIF is read and written only for names that pass it |
| `Paths.Join` | photo_date_changer/file_ops.py:14-19 | `os.path.join` for two parts: an absolute second part replaces the first, an empty first part or one ending in `/` is followed directly, otherwise a `/` goes between; `JoinInjective` states that slash-free names never collide |
| `Paths.JoinInjective` | photo_date_changer/file_ops.py:19 | joining two slash-free names to the same directory gives the same path only when the names are equal |
| `DateTimeText.BlankRun` | photo_date_changer/exif_utils.py:12 | the run counted is the longest prefix of whitespace: every character before it is a blank and the one after it, if any, is not |
| `DateTimeText.Parse` | photo_date_changer/exif_utils.py:11-12 | the text parses exactly when it scans as the fixed format and the fields form a valid date, and the instant returned converts back to the scanned fields; `ParseFormat` is its round trip |
| `DateTimeText.Format` | photo_date_changer/exif_utils.py:41 | the text is always 19 characters; `FormatLayout` gives its layout and `ParseFormat` shows `Parse` inverts it |
| `DateTimeText.FormatLayout` | photo_date_changer/exif_utils.py:41 | the text reads "YYYY:MM:DD HH:MM:SS": digits at every position but the colons and the space |
| `DateTimeText.ScanText` | photo_date_changer/exif_utils.py:41 | the zero-padded text of a valid date scans back to exactly its fields |
| `DateTimeText.ParseFormat` | photo_date_changer/exif_utils.py:11-12 | parsing the formatted text of any in-range instant gives that instant back |
| `Sorting.SortPermutes` | photo_date_changer/runner.py:44-51 | sorting keeps every file and its multiplicity |
| `Sorting.SortSorts` | photo_date_changer/runner.py:44-51 | the sorted files are in non-decreasing key order (names by code point, times numerically) |
| `Sorting.SortStable` | photo_date_changer/runner.py:44-51 | files with equal keys keep their relative order from the listing |
| `Sorting.SortIsUnique` | photo_date_changer/runner.py:44-51 | two sorted, stable arrangements of the same files are equal, so the order is the one Python's stable sort produces |
| `Os.IsDir` | photo_date_changer/runner.py:34 | `os.path.isdir`: the path exists and is a directory; `FolderMissingChangesNothing` states what `run` does when it fails |
| `Os.IsFile` | photo_date_changer/runner.py:39 | `os.path.isfile`: the path exists and is a regular file; `RegularFilesMembers` and `ListingGather` state the filters built on it |
| `Os.Sink.Log` | photo_date_changer/runner.py:25 | a log call appends exactly its event and leaves the progress reports alone |
| `Os.Sink.Report` | photo_date_changer/runner.py:27 | a progress call appends exactly its pair and leaves the log alone |
| `ExifUtils.ExifDateTime` | photo_date_changer/exif_utils.py:15-29 | the read of `DateTimeOriginal`; its meaning, both directions, is stated by `ExifDateTimeReadsOriginal` and its agreement with a write by `WriteThenRead` |
| `ExifUtils.ExifDateTimeReadsOriginal` | photo_date_changer/exif_utils.py:15-29 | the read gives `t` exactly when the metadata decodes, holds `DateTimeOriginal` in its EXIF IFD, and that text parses to `t`; every failure reads as None |
| `ExifUtils.SetDateTags` | photo_date_changer/exif_utils.py:39-46 | the edit creates the EXIF and 0th IFDs when missing and sets `DateTimeOriginal`, `DateTimeDigitized` and `DateTime` to the stamp |
| `ExifUtils.SetDateTagsKeepsOtherTags` | photo_date_changer/exif_utils.py:39-46 | every other tag in every IFD keeps its value, and no tag other than the three date slots is added |
| `ExifUtils.EditTags` | photo_date_changer/exif_utils.py:39-46 | the `setdefault` calls and the loop over the two EXIF tags build exactly `SetDateTags` |
| `ExifUtils.UpdateExifDate` | photo_date_changer/exif_utils.py:32-51 | the update leaves the file system as `ExifAfter` of the old state and logs one event: dry-run, updated, or error |
| `ExifUtils.DryRunKeepsExif` | photo_date_changer/exif_utils.py:33-35 | a dry run changes nothing |
| `ExifUtils.ExifWriteIsLocal` | photo_date_changer/exif_utils.py:36-51 | an EXIF write touches only its own path and keeps that file's access and modification times |
| `ExifUtils.WriteThenRead` | photo_date_changer/exif_utils.py:41-46 | reading `DateTimeOriginal` after writing the stamp of `t` gives `t` back |
| `ExifUtils.UpdatedExifReadsBack` | photo_date_changer/exif_utils.py:32-51 | after a successful non-dry update, the file is still a regular file and its EXIF date reads as `t` |
| `FileOps.GatherFiles` | photo_date_changer/file_ops.py:11-22 | the loops return the walked paths (recursive) or the listed regular files (non-recursive), in the order they are produced |
| `FileOps.ListingGather` | photo_date_changer/file_ops.py:17-21 | a non-recursive gather returns exactly the regular files named in the listing, so filtering it again is a no-op |
| `FileOps.WalkGather` | photo_date_changer/file_ops.py:13-16 | every file name of every directory the walk yields appears, joined to its root |
| `FileOps.WalkGatherOnly` | photo_date_changer/file_ops.py:13-16 | conversely, every path a recursive gather returns is some file name of some directory of the walk, joined to that directory's root |
| `FileOps.RegularFiles` | photo_date_changer/runner.py:39 | the `os.path.isfile` filter in order; `RegularFilesMembers`, `RegularFilesAppend`, `RegularFilesOfFiles` and `RegularFilesCount` state what it keeps, that it keeps order, that it is idempotent on files and that it keeps multiplicity |
| `FileOps.RegularFilesMembers` | photo_date_changer/runner.py:39 | a path survives the filter exactly when it was gathered and is a regular file |
| `FileOps.RegularFilesAppend` | photo_date_changer/runner.py:39 | filtering distributes over concatenation, so the filter keeps order |
| `FileOps.RegularFilesOfFiles` | photo_date_changer/runner.py:39 | filtering a list of regular files changes nothing |
| `FileOps.RegularFilesCount` | photo_date_changer/runner.py:39 | the filter keeps every regular file as often as it was gathered and drops everything else |
| `FileOps.OriginalTime` | photo_date_changer/file_ops.py:24-31 | the original time is either the mtime or, for a JPEG name, the time its EXIF `DateTimeOriginal` reads as; a non-JPEG or a JPEG whose EXIF does not read gets its mtime |
| `FileOps.OriginalTimePrefersExif` | photo_date_changer/file_ops.py:25-30 | a JPEG whose EXIF date reads as `t` has original time `t`, whatever its mtime |
| `FileOps.OriginalTimeFallsBackToMtime` | photo_date_changer/file_ops.py:25-31 | a non-JPEG, or a JPEG without a readable EXIF date, has its mtime as original time, whatever its metadata |
| `FileOps.UpdateFileTimestamp` | photo_date_changer/file_ops.py:34-43 | the update leaves the file system as `TimestampAfter` of the old state and logs one event: dry-run, updated, or error |
| `FileOps.TimestampWriteIsLocal` | photo_date_changer/file_ops.py:34-43 | only the path's own entry changes. A dry run or a refused `os.utime` changes nothing. Otherwise a file gets `t` as both times and keeps its metadata |
| `Sorting.SortBy` | photo_date_changer/runner.py:44-51 | the stable sort; `SortPermutes`, `SortSorts`, `SortStable` and `SortIsUnique` state that it is the permutation Python's `sorted` returns |
| `Runner.MTime` | photo_date_changer/runner.py:49 | `os.path.getmtime` of a planned file: its recorded modification time; the sort by it is stated by `PlanIsSortedPermutation` |
| `Runner.Original` | photo_date_changer/runner.py:51 | `get_original_time` of a planned file, as `OriginalTime` of its state; `OriginalTimePrefersExif` and `OriginalTimeFallsBackToMtime` state its cases, and `AlignEarliestIsFirst` and `AlignKeepsGaps` what the sort and the align targets make of it |
| `Runner.SortKey` | photo_date_changer/runner.py:44-51 | the key per mode and `sort_by`; `PlanIsSortedPermutation` states the plan is sorted by it and `AlignEarliestIsFirst` uses that it is the original time outside increment mode |
| `Runner.IncrementTarget` | photo_date_changer/runner.py:100 | the increment formula; `IncrementSpacing` and `NoIncrementCollapses` state the spacing and the `no_increment` case |
| `Runner.AlignTarget` | photo_date_changer/runner.py:77-79 | the align formula `orig + (base - earliest)`; `AlignKeepsGaps` and `AlignEarliestIsFirst` state that the earliest file gets the base and gaps are kept |
| `Runner.Targets` | photo_date_changer/runner.py:76-100 | one target per file, the align formula in align-earliest mode and the increment formula otherwise; the target lemmas above state each |
| `Runner.Plan` | photo_date_changer/runner.py:38-51 | the regular files gathered, sorted by the mode's key; `PlanIsSortedPermutation` states it is a stable sorted permutation of them and `PlanEmpty` that it is empty exactly when none was gathered |
| `Runner.FileAfter` | photo_date_changer/runner.py:89-91 | the effect of one loop body on the file system; `FileAfterIsLocal`, `FileAfterOwnEntry` and `FileAfterEffect` state that only its own path changes, from its own entry, to the target times and EXIF date |
| `Runner.FirstMin` | photo_date_changer/runner.py:78 | the index picked holds the least original time, and every earlier index holds a strictly greater one (`min` keeps the first of equal values) |
| `Runner.StopAt` | photo_date_changer/runner.py:82-105 | every file before the stopping index passes its cancellation check and has an in-range target; the file at the stopping index, if any, does not |
| `Runner.ProcessFile` | photo_date_changer/runner.py:89-91 | one loop body: the EXIF write for JPEG names, then the timestamp write, with their events in that order |
| `Runner.Step` | photo_date_changer/runner.py:95-105 | one iteration advances the file system, the log and the progress from the state after `idx` files to the state after `idx + 1` |
| `Runner.ApplyBatch` | photo_date_changer/runner.py:82-105 | the loop stops at `StopAt`. Files before it are updated in order with one progress report each, and a cancellation adds its log line |
| `Runner.AnnounceEarliest` | photo_date_changer/runner.py:76-81 | in align-earliest mode it logs the earliest file with its original time and the offset; otherwise it logs nothing |
| `Runner.Finish` | photo_date_changer/runner.py:82-107 | the loop followed by its closing line: the cancellation line, done or dry-run complete on completion, and nothing after an overflow |
| `Runner.Start` | photo_date_changer/runner.py:75-107 | everything after the confirmation gate equals `Started` of the old state |
| `Runner.RunSpec` | photo_date_changer/runner.py:14-107 | the reference for `run`; `Run` is proved equal to it, and the `RunProperties` lemmas state the gates, the dry run, the cancellation boundary, the prefix of updated files and the progress reports |
| `Runner.Run` | photo_date_changer/runner.py:14-107 | the outcome, the new file system, the appended log and the appended progress equal `RunSpec` of the old state |
| `RunProperties.FolderMissingChangesNothing` | photo_date_changer/runner.py:34-36 | a missing folder logs one line and changes nothing |
| `RunProperties.PlanEmpty` | photo_date_changer/runner.py:38-42 | the sorted plan is empty exactly when no regular file was gathered |
| `RunProperties.NoFilesChangesNothing` | photo_date_changer/runner.py:40-42 | with no regular file, the run logs one line and changes nothing |
| `RunProperties.NotStartedChangesNothing` | photo_date_changer/runner.py:58-73 | a declined confirmation, or a flag set before the start, changes no file and reports no progress |
| `RunProperties.PlanIsSortedPermutation` | photo_date_changer/runner.py:38-51 | the plan holds exactly the gathered regular files, is sorted by the mode's key, and keeps the listing order among equal keys |
| `RunProperties.IncrementSpacing` | photo_date_changer/runner.py:100 | in increment mode the first target is the base, and targets `i` and `j` lie `(j - i) * increment_seconds` apart |
| `RunProperties.NoIncrementCollapses` | photo_date_changer/runner.py:100 | with `no_increment` every target is the base |
| `RunProperties.AlignKeepsGaps` | photo_date_changer/runner.py:77-88 | in align-earliest mode the earliest file gets the base, and every target is its original time plus one common offset, so no target is before the base and all gaps between files are kept |
| `RunProperties.AlignEarliestIsFirst` | photo_date_changer/runner.py:51-79 | because the plan is sorted by original time, the earliest file is the first one planned, and it gets the base |
| `RunProperties.DryBatchChangesNothing` | photo_date_changer/runner.py:82-105 | a dry batch of any length leaves the file system as it was |
| `RunProperties.DryRunChangesNothing` | photo_date_changer/runner.py:14-107 | a dry run changes nothing, whatever the gates, the cancellations and the targets |
| `RunProperties.FileAfterIsLocal` | photo_date_changer/runner.py:89-91 | one file's update changes only that file's entry |
| `RunProperties.FileAfterOwnEntry` | photo_date_changer/runner.py:89-91 | what one file's update makes of it depends only on that file's own entry |
| `RunProperties.FileAfterEffect` | photo_date_changer/runner.py:89-91 | outside a dry run, a file's times become `t` unless `os.utime` is refused. A JPEG whose EXIF write succeeds reads back as `t`; any other file keeps its metadata |
| `RunProperties.BatchKeepsKeys` | photo_date_changer/runner.py:82-105 | the loop neither creates nor removes a path |
| `RunProperties.BatchKeepsOthers` | photo_date_changer/runner.py:82-105 | every path not yet reached by the loop is as it was |
| `RunProperties.BatchEntryOf` | photo_date_changer/runner.py:82-105 | in a plan without repeated paths, each processed file ends as its own update made it from its original entry |
| `RunProperties.RunUpdatesPrefix` | photo_date_changer/runner.py:75-105 | a run past the gates that stops before file `m` has updated files `0..m-1` with their own targets and left files `m..n-1` and every other path untouched |
| `RunProperties.RunReportsPrefix` | photo_date_changer/runner.py:82-105 | a run past the gates that stops before file `m` reports `(1, n), ..., (m, n)` and nothing else |
| `RunProperties.RunStarted` | photo_date_changer/runner.py:34-73 | a run that reached the loop passed all four gates: folder, non-empty plan, confirmation, and a flag unset at the start |
| `RunProperties.CancellationBoundary` | photo_date_changer/runner.py:82-99 | a cancellation before file `m` means file `m` exists, the flag was set at its check, and it was unset at every earlier check |
| `RunProperties.CanceledRunEnds` | photo_date_changer/runner.py:82-99 | a run canceled before file `m` has made exactly `m` progress reports, the last being `(m, n)`, and its last log line is the cancellation |
| `RunProperties.CompletedReportsAll` | photo_date_changer/runner.py:82-105 | a completed run reports `(1, n), ..., (n, n)`, strictly increasing |
| `RunProperties.CompletedEndsWithDone` | photo_date_changer/runner.py:107 | a completed run's last log line is the done line, or the dry-run line in a dry run |
| `RunProperties.BatchCanceledAt` | photo_date_changer/runner.py:82-99 | a batch canceled before file `m` stopped at `m`, found the flag set at that check and unset at the checks before files `0..m-1` |
| `RunProperties.ListingPlanIsDistinct` | photo_date_changer/file_ops.py:17-21 | a non-recursive listing of distinct names gives a plan without repeated paths |

## Left out

- The GUI, the command line, threads and the `input` prompt are not part of this model. The answer to the prompt is the `confirmed` parameter, and the flag is the `cancel` readings.
- The JPEG and EXIF byte codecs (PIL's `Image.open`/`save`, `piexif.load`/`dump`) are not part of this model. A file's metadata is its decoded tag map, or one of three states: not an image, no EXIF segment, undecodable.
- Whether a save or an `os.utime` fails is given by the `Refusals` sets. The exception messages are not modelled.
- ExifUtils.ExifWriteIsLocal and RunProperties.FileAfterEffect: a successful save keeps the file's recorded times, and a refused `os.utime` afterwards leaves them as they were. In the source, `img.save` rewrites the file, so its modification time becomes the save time, and that is what remains when the later `os.utime` is refused. Re-encoding the pixels on save is not modelled either.
- Times are whole seconds on one naive scale. Fractional `getmtime` values, the local-time conversions of `fromtimestamp` and `timestamp()`, and time zones are not modelled.
- `Paths.Lower` and `DateTimeText.Parse` work on ASCII only. `IsBlank` holds every ASCII character that `\s` matches (tab to carriage return, 0x1C to 0x1F, space), but the non-ASCII whitespace `\s` also matches (such as U+0085, U+00A0, U+2000 to U+200A, U+3000), Unicode digits and Unicode case mapping are not modelled.
- Paths follow POSIX `posixpath`: `/` separates components and `Lower` and `Basename` work on it. The GUI also runs on Windows, whose `ntpath` (backslash separators, drive letters, case-insensitive names) is not modelled.
- Tag values are text. The UTF-8 encoding on write and the decoding with ignored errors on read are not modelled.
- `DateTimeText.Format` always pads the year to four digits. Platforms whose `strftime` leaves years below 1000 unpadded are not modelled.
- Log events carry full paths and typed values instead of the formatted messages, `os.path.relpath` and the emoji.
- `progress_fn` is optional in the source. The model always records the reports.
- The entries of directories and special files carry no timestamps. `os.utime` on them is modelled as a no-op that succeeds unless refused.
- `os.walk` is the `walk` parameter and is not derived from the directory entries. Its listing order and its error handling are not modelled.
- `os.listdir` raising on a folder that passed `isdir` (a `PermissionError`, or the folder vanishing in between) is not modelled. In the source that exception is not caught and leaves `run`; the model's listing always succeeds.
- `Runner.MTime` and `Runner.Original` read 0 for a path that is not a regular file. The plan only ever holds regular files, so the value is never used.
- FileOps.GatherFiles: requires a directory for the non-recursive listing. `os.listdir` raises on anything else, and `run` only calls it after its own `isdir` check.
- RunProperties.RunUpdatesPrefix: requires a plan without repeated paths. This is proved for non-recursive listings (`ListingPlanIsDistinct`); a `walk` parameter may repeat a path, which a real `os.walk` without link following does not. Distinct path strings are not enough for a real folder holding links; see the next line.
- Two paths that name one file are not modelled. `Entries` is keyed by path string, but `os.path.isfile`, `os.utime`, `Image.open` and `img.save` follow symbolic links, and a hard link shares its file with the original. With such aliases in a plan, updating one path also changes the other, so for the source the "untouched" clauses of `RunProperties.RunUpdatesPrefix` and `RunProperties.BatchKeepsOthers` do not hold, and the last update of the shared file wins whichever path it came through.

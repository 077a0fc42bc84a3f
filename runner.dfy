/**
 * `OperationRunner.run`: check the folder, gather and filter the files,
 * sort them, ask for confirmation, compute one target time per file, and
 * apply the targets in order, polling a cancellation flag before each
 * file and reporting progress after each.
 */
module Runner {
  import opened Calendar
  import opened Paths
  import opened Os
  import opened Sorting
  import opened ExifUtils
  import opened FileOps

  /** The arguments of `run` (the callbacks become the Sink, the flag readings and the answer). */
  datatype Config = Config(
    folder: Path,
    base: Time,
    incrementSeconds: int,
    noIncrement: bool,
    recursive: bool,
    sortBy: string,
    mode: string,
    dryRun: bool,
    yes: bool)

  /** How `run` ends: one of its early returns, a cancellation, an OverflowError, or the end of the loop. */
  datatype Outcome =
    | FolderMissing
    | NoFiles
    | Declined
    | StoppedBeforeStart
    | CanceledAt(index: nat)   // the flag was seen set before file `index`
    | Overflowed(index: nat)   // the target of file `index` is outside the datetime range
    | Completed

  /** `os.path.getmtime`; the paths being sorted are regular files, others read as 0. */
  function MTime(entries: Entries, p: Path): Time {
    if IsFile(entries, p) then entries[p].state.mtime else 0
  }

  /** `get_original_time`; the paths being sorted are regular files, others read as 0. */
  function Original(entries: Entries, p: Path): Time {
    if IsFile(entries, p) then OriginalTime(p, entries[p].state) else 0
  }

  /**
   * The sort key: in "increment" mode the lower-cased basename when
   * `sort_by` is "name" and the mtime for any other value; in any other
   * mode the original time.
   */
  function SortKey(entries: Entries, cfg: Config): Path -> Key {
    if cfg.mode == "increment" then
      if cfg.sortBy == "name" then p => Key.Text(Lower(Basename(p)))
      else p => Instant(MTime(entries, p))
    else p => Instant(Original(entries, p))
  }

  /** The files in the order `run` processes them. */
  function Plan(entries: Entries, cfg: Config, walk: seq<WalkDir>): seq<Path>
    requires IsDir(entries, cfg.folder)
  {
    SortBy(RegularFiles(entries, Gathered(entries, cfg.folder, cfg.recursive, walk)), SortKey(entries, cfg))
  }

  /** The target of the file at `idx` in increment mode. */
  function IncrementTarget(base: Time, inc: int, noIncrement: bool, idx: nat): int {
    if noIncrement then base else base + idx * inc
  }

  /** The index `min` picks: the first one holding the least value. */
  function FirstMin(s: seq<int>): (k: nat)
    requires s != []
    ensures k < |s|
    ensures forall i :: 0 <= i < |s| ==> s[k] <= s[i]
    ensures forall i :: 0 <= i < k ==> s[k] < s[i]
  {
    if |s| == 1 then 0
    else
      var k := FirstMin(s[..|s| - 1]);
      if s[|s| - 1] < s[k] then |s| - 1 else k
  }

  /**
   * The original times, one per file (the `orig_times` dictionary). Its
   * ensures only unfold the body for the proofs that use it; it specifies nothing.
   */
  function Origins(entries: Entries, files: seq<Path>): (r: seq<Time>)
    ensures |r| == |files|
    ensures forall i :: 0 <= i < |files| ==> r[i] == Original(entries, files[i])
  {
    seq(|files|, i requires 0 <= i < |files| => Original(entries, files[i]))
  }

  /** The target of the file at `idx` in align-earliest mode: its original time shifted by `base - earliest`. */
  function AlignTarget(origs: seq<int>, base: Time, idx: nat): int
    requires idx < |origs|
  {
    origs[idx] + (base - origs[FirstMin(origs)])
  }

  /**
   * One target per file, possibly outside the datetime range, given the
   * files' original times: the align-earliest formula in mode
   * "align-earliest", the increment formula (which uses only the count)
   * in every other mode.
   */
  function Targets(cfg: Config, origs: seq<int>): (r: seq<int>)
    ensures |r| == |origs|
  {
    if cfg.mode == "align-earliest" && origs != [] then
      seq(|origs|, i requires 0 <= i < |origs| => AlignTarget(origs, cfg.base, i))
    else
      seq(|origs|, i requires 0 <= i < |origs| => IncrementTarget(cfg.base, cfg.incrementSeconds, cfg.noIncrement, i))
  }

  /**
   * The flag as read at check `k`: check 0 precedes the batch and check
   * `i + 1` precedes file `i`; readings past the end of `cancel` are unset
   * (no event passed, or never set).
   */
  predicate Canceled(cancel: seq<bool>, k: nat) {
    k < |cancel| && cancel[k]
  }

  /** Whether file `j` is updated once reached: the flag is unset at its check and its target is in range. */
  predicate Proceeds(cancel: seq<bool>, targets: seq<int>, j: nat)
    requires j < |targets|
  {
    !Canceled(cancel, j + 1) && InRange(targets[j])
  }

  /** The first file from `i` on before which the run stops: the flag is seen set, or its target overflows. */
  function StopAt(cancel: seq<bool>, targets: seq<int>, i: nat): (r: nat)
    requires i <= |targets|
    ensures i <= r <= |targets|
    ensures forall j :: i <= j < r ==> Proceeds(cancel, targets, j)
    ensures forall j :: i <= j < r ==> InRange(targets[j])
    ensures r < |targets| ==> !Proceeds(cancel, targets, r)
    decreases |targets| - i
  {
    if i == |targets| || !Proceeds(cancel, targets, i) then i
    else StopAt(cancel, targets, i + 1)
  }

  function BatchOutcome(cancel: seq<bool>, targets: seq<int>): Outcome {
    var m := StopAt(cancel, targets, 0);
    if m == |targets| then Completed
    else if Canceled(cancel, m + 1) then CanceledAt(m)
    else Overflowed(m)
  }

  /** The EXIF half of one file's update, made for `.jpg`/`.jpeg` names only. */
  function ExifStep(entries: Entries, p: Path, t: Time, dryRun: bool, refusals: Refusals): Entries {
    if IsJpegName(p) then ExifAfter(entries, p, t, dryRun, refusals) else entries
  }

  /** The file system after one file's update: EXIF for JPEGs, then the timestamps. */
  function FileAfter(entries: Entries, p: Path, t: Time, dryRun: bool, refusals: Refusals): Entries {
    TimestampAfter(ExifStep(entries, p, t, dryRun, refusals), p, t, dryRun, refusals)
  }

  /** What one file's update logs. */
  function FileEvents(entries: Entries, p: Path, t: Time, dryRun: bool, refusals: Refusals): seq<Event> {
    (if IsJpegName(p) then [ExifEvent(entries, p, t, dryRun, refusals)] else [])
    + [TimestampEvent(ExifStep(entries, p, t, dryRun, refusals), p, t, dryRun, refusals)]
  }

  /** The file system after files 0..m-1 have been updated in order. */
  function AfterBatch(entries: Entries, files: seq<Path>, targets: seq<int>, m: nat, dryRun: bool, refusals: Refusals): Entries
    requires m <= |files| == |targets|
    requires forall j :: 0 <= j < m ==> InRange(targets[j])
  {
    if m == 0 then entries
    else
      assert InRange(targets[m - 1]);
      FileAfter(AfterBatch(entries, files, targets, m - 1, dryRun, refusals), files[m - 1], targets[m - 1], dryRun, refusals)
  }

  /** What updating files 0..m-1 logs. */
  function BatchLog(entries: Entries, files: seq<Path>, targets: seq<int>, m: nat, dryRun: bool, refusals: Refusals): seq<Event>
    requires m <= |files| == |targets|
    requires forall j :: 0 <= j < m ==> InRange(targets[j])
  {
    if m == 0 then []
    else
      assert InRange(targets[m - 1]);
      BatchLog(entries, files, targets, m - 1, dryRun, refusals)
      + FileEvents(AfterBatch(entries, files, targets, m - 1, dryRun, refusals), files[m - 1], targets[m - 1], dryRun, refusals)
  }

  /** The progress reports after files 0..m-1 of n. */
  function Ramp(m: nat, n: nat): seq<Progress> {
    seq(m, i requires 0 <= i < m => Progress(i + 1, n))
  }

  /** One file's update, as the loop body makes it. */
  method ProcessFile(fs: FileSystem, sink: Sink, path: Path, t: Time, dryRun: bool)
    modifies fs, sink
    ensures fs.entries == FileAfter(old(fs.entries), path, t, dryRun, fs.refusals)
    ensures sink.log == old(sink.log) + FileEvents(old(fs.entries), path, t, dryRun, fs.refusals)
    ensures sink.progress == old(sink.progress)
  {
    if IsJpegName(path) {
      UpdateExifDate(fs, sink, path, t, dryRun);
    }
    UpdateFileTimestamp(fs, sink, path, t, dryRun);
  }

  /**
   * The loop of `run` (both modes: they differ only in the targets): before
   * file `idx` poll the flag and stop if it is set; compute the target,
   * raising when it is out of range; update the file; report `(idx + 1, n)`.
   */
  method ApplyBatch(fs: FileSystem, sink: Sink, files: seq<Path>, targets: seq<int>, cancel: seq<bool>, dryRun: bool)
    returns (outcome: Outcome)
    requires |files| == |targets|
    modifies fs, sink
    ensures outcome == BatchOutcome(cancel, targets)
    ensures var m := StopAt(cancel, targets, 0);
      && fs.entries == AfterBatch(old(fs.entries), files, targets, m, dryRun, fs.refusals)
      && sink.log == old(sink.log) + BatchLog(old(fs.entries), files, targets, m, dryRun, fs.refusals)
                     + (if outcome.CanceledAt? then [CanceledByUser] else [])
      && sink.progress == old(sink.progress) + Ramp(m, |files|)
  {
    var idx := 0;
    while idx < |files|
      invariant idx <= |files|
      invariant StopAt(cancel, targets, idx) == StopAt(cancel, targets, 0)
      invariant forall j :: 0 <= j < idx ==> InRange(targets[j])
      invariant fs.entries == AfterBatch(old(fs.entries), files, targets, idx, dryRun, fs.refusals)
      invariant sink.log == old(sink.log) + BatchLog(old(fs.entries), files, targets, idx, dryRun, fs.refusals)
      invariant sink.progress == old(sink.progress) + Ramp(idx, |files|)
    {
      if Canceled(cancel, idx + 1) {
        sink.Log(CanceledByUser);
        return CanceledAt(idx);
      }
      if !InRange(targets[idx]) {
        return Overflowed(idx);
      }
      Step(fs, sink, files, targets, idx, dryRun, old(fs.entries), old(sink.log), old(sink.progress));
      idx := idx + 1;
    }
    return Completed;
  }

  /** One pass of the loop body after its checks: update file `idx`, then report `(idx + 1, n)`. */
  method Step(fs: FileSystem, sink: Sink, files: seq<Path>, targets: seq<int>, idx: nat, dryRun: bool,
              ghost entries0: Entries, ghost log0: seq<Event>, ghost progress0: seq<Progress>)
    requires idx < |files| == |targets|
    requires forall j :: 0 <= j <= idx ==> InRange(targets[j])
    requires fs.entries == AfterBatch(entries0, files, targets, idx, dryRun, fs.refusals)
    requires sink.log == log0 + BatchLog(entries0, files, targets, idx, dryRun, fs.refusals)
    requires sink.progress == progress0 + Ramp(idx, |files|)
    modifies fs, sink
    ensures fs.entries == AfterBatch(entries0, files, targets, idx + 1, dryRun, fs.refusals)
    ensures sink.log == log0 + BatchLog(entries0, files, targets, idx + 1, dryRun, fs.refusals)
    ensures sink.progress == progress0 + Ramp(idx + 1, |files|)
  {
    ghost var before, logged := fs.entries, sink.log;
    ProcessFile(fs, sink, files[idx], targets[idx], dryRun);
    assert BatchLog(entries0, files, targets, idx + 1, dryRun, fs.refusals)
        == BatchLog(entries0, files, targets, idx, dryRun, fs.refusals)
           + FileEvents(before, files[idx], targets[idx], dryRun, fs.refusals);
    assert sink.log == logged + FileEvents(before, files[idx], targets[idx], dryRun, fs.refusals);
    sink.Report(idx + 1, |files|);
    assert Ramp(idx + 1, |files|) == Ramp(idx, |files|) + [Progress(idx + 1, |files|)];
  }

  /** The first ten files, as the "First 10 files" listing shows them. */
  function Preview(files: seq<Path>): seq<Path> {
    if |files| <= 10 then files else files[..10]
  }

  /** The two lines align-earliest mode logs before its loop. */
  function Announce(cfg: Config, files: seq<Path>, origs: seq<Time>): seq<Event>
    requires |origs| == |files|
  {
    if cfg.mode == "align-earliest" && files != [] then
      var k := FirstMin(origs);
      [EarliestFile(files[k], origs[k]), OffsetApplied(cfg.base - origs[k])]
    else []
  }

  /** The line logged after the loop: none after an exception. */
  function Closing(outcome: Outcome, dryRun: bool): seq<Event> {
    match outcome
    case Completed => [if dryRun then DryRunComplete else Done]
    case CanceledAt(_) => [CanceledByUser]
    case _ => []
  }

  /** The end state of a run and what it appended to the two channels. */
  datatype RunResult = RunResult(outcome: Outcome, entries: Entries, log: seq<Event>, progress: seq<Progress>)

  /**
   * The part of `run` after the confirmation gate: the targets, the
   * align-earliest announcement, the loop and the closing line.
   */
  function Started(entries: Entries, refusals: Refusals, cfg: Config, files: seq<Path>, cancel: seq<bool>): RunResult {
    var targets := Targets(cfg, Origins(entries, files));
    var m := StopAt(cancel, targets, 0);
    var outcome := BatchOutcome(cancel, targets);
    RunResult(
      outcome,
      AfterBatch(entries, files, targets, m, cfg.dryRun, refusals),
      Announce(cfg, files, Origins(entries, files)) + BatchLog(entries, files, targets, m, cfg.dryRun, refusals)
        + Closing(outcome, cfg.dryRun),
      Ramp(m, |files|))
  }

  /**
   * What `run` does, given the file system, what `os.walk` yields, the
   * answer to the confirmation prompt, and the successive readings of the
   * cancellation flag.
   */
  function RunSpec(entries: Entries, refusals: Refusals, cfg: Config, walk: seq<WalkDir>, confirmed: bool, cancel: seq<bool>): RunResult {
    if !IsDir(entries, cfg.folder) then
      RunResult(FolderMissing, entries, [FolderNotFound(cfg.folder)], [])
    else
      var files := Plan(entries, cfg, walk);
      if files == [] then
        RunResult(NoFiles, entries, [NoFilesFound(cfg.folder)], [])
      else
        var found := [FilesFound(|files|, Preview(files))];
        if !cfg.yes && !confirmed then
          RunResult(Declined, entries, found + [OperationDeclined], [])
        else if Canceled(cancel, 0) then
          RunResult(StoppedBeforeStart, entries, found + [CanceledBeforeStart], [])
        else
          var r := Started(entries, refusals, cfg, files, cancel);
          r.(log := found + r.log)
  }

  lemma Regroup<T>(a: seq<T>, b: seq<T>, c: seq<T>, d: seq<T>)
    ensures (a + b) + (c + d) == a + ((b + c) + d)
  {
  }

  lemma SplitLast<T>(a: seq<T>, c: seq<T>)
    requires a != []
    ensures a + c == a[..|a| - 1] + ([a[|a| - 1]] + c)
  {
    assert a == a[..|a| - 1] + [a[|a| - 1]];
  }

  /** `OperationRunner.run`. */
  method Run(fs: FileSystem, sink: Sink, cfg: Config, walk: seq<WalkDir>, confirmed: bool, cancel: seq<bool>)
    returns (outcome: Outcome)
    modifies fs, sink
    ensures var r := RunSpec(old(fs.entries), fs.refusals, cfg, walk, confirmed, cancel);
      && outcome == r.outcome
      && fs.entries == r.entries
      && sink.log == old(sink.log) + r.log
      && sink.progress == old(sink.progress) + r.progress
  {
    if !IsDir(fs.entries, cfg.folder) {
      sink.Log(FolderNotFound(cfg.folder));
      return FolderMissing;
    }
    var files := GatherFiles(fs, cfg.folder, cfg.recursive, walk);
    files := RegularFiles(fs.entries, files);
    if |files| == 0 {
      sink.Log(NoFilesFound(cfg.folder));
      return NoFiles;
    }
    SortPermutes(files, SortKey(fs.entries, cfg));
    files := SortBy(files, SortKey(fs.entries, cfg));
    assert files != [] by {
      assert |multiset(files)| > 0;
    }
    sink.Log(FilesFound(|files|, Preview(files)));
    if !cfg.yes && !confirmed {
      sink.Log(OperationDeclined);
      return Declined;
    }
    if Canceled(cancel, 0) {
      sink.Log(CanceledBeforeStart);
      return StoppedBeforeStart;
    }
    ghost var entries0, log0 := fs.entries, sink.log;
    outcome := Start(fs, sink, cfg, files, cancel);
    SplitLast(log0, Started(entries0, fs.refusals, cfg, files, cancel).log);
  }

  /** The part of `run` after the confirmation gate. */
  method Start(fs: FileSystem, sink: Sink, cfg: Config, files: seq<Path>, cancel: seq<bool>) returns (outcome: Outcome)
    modifies fs, sink
    ensures var r := Started(old(fs.entries), fs.refusals, cfg, files, cancel);
      && outcome == r.outcome
      && fs.entries == r.entries
      && sink.log == old(sink.log) + r.log
      && sink.progress == old(sink.progress) + r.progress
  {
    var origs := Origins(fs.entries, files);
    var targets := Targets(cfg, origs);
    ghost var entries0, log0 := fs.entries, sink.log;
    AnnounceEarliest(sink, cfg, files, origs);
    outcome := Finish(fs, sink, files, targets, cancel, cfg.dryRun);
    ghost var m := StopAt(cancel, targets, 0);
    Regroup(log0, Announce(cfg, files, Origins(entries0, files)),
            BatchLog(entries0, files, targets, m, cfg.dryRun, fs.refusals), Closing(outcome, cfg.dryRun));
  }

  /** The two lines align-earliest mode logs before its loop. */
  method AnnounceEarliest(sink: Sink, cfg: Config, files: seq<Path>, origs: seq<Time>)
    requires |origs| == |files|
    modifies sink
    ensures sink.log == old(sink.log) + Announce(cfg, files, origs)
    ensures sink.progress == old(sink.progress)
  {
    if cfg.mode == "align-earliest" && files != [] {
      var k := FirstMin(origs);
      sink.Log(EarliestFile(files[k], origs[k]));
      sink.Log(OffsetApplied(cfg.base - origs[k]));
    }
  }

  /** The loop and the line logged after it. */
  method Finish(fs: FileSystem, sink: Sink, files: seq<Path>, targets: seq<int>, cancel: seq<bool>, dryRun: bool)
    returns (outcome: Outcome)
    requires |files| == |targets|
    modifies fs, sink
    ensures outcome == BatchOutcome(cancel, targets)
    ensures var m := StopAt(cancel, targets, 0);
      && fs.entries == AfterBatch(old(fs.entries), files, targets, m, dryRun, fs.refusals)
      && sink.log == old(sink.log) + (BatchLog(old(fs.entries), files, targets, m, dryRun, fs.refusals) + Closing(outcome, dryRun))
      && sink.progress == old(sink.progress) + Ramp(m, |files|)
  {
    outcome := ApplyBatch(fs, sink, files, targets, cancel, dryRun);
    if outcome == Completed {
      sink.Log(if dryRun then DryRunComplete else Done);
    }
  }
}

/**
 * What a run of `OperationRunner.run` guarantees, proved about its
 * reference definition `Runner.RunSpec` (which `Runner.Run` implements):
 * the early returns change nothing, the plan is the filtered files in
 * sorted order, the target formulas space and anchor the files as
 * intended, a dry run writes nothing, and the loop updates exactly the
 * files before the point where it stops, each with its own target.
 */
module RunProperties {
  import opened Calendar
  import opened Paths
  import opened Os
  import opened Sorting
  import opened ExifUtils
  import opened FileOps
  import opened Runner

  ghost predicate Distinct<T>(s: seq<T>) {
    forall i, j :: 0 <= i < j < |s| ==> s[i] != s[j]
  }

  /** A run whose folder is not a directory logs one line and changes nothing. */
  lemma FolderMissingChangesNothing(entries: Entries, refusals: Refusals, cfg: Config, walk: seq<WalkDir>, confirmed: bool, cancel: seq<bool>)
    requires !IsDir(entries, cfg.folder)
    ensures var r := RunSpec(entries, refusals, cfg, walk, confirmed, cancel);
      r.outcome == FolderMissing && r.entries == entries && r.progress == [] && r.log == [FolderNotFound(cfg.folder)]
  {
  }

  /** The plan is empty exactly when the filtered files are. */
  lemma PlanEmpty(entries: Entries, cfg: Config, walk: seq<WalkDir>)
    requires IsDir(entries, cfg.folder)
    ensures Plan(entries, cfg, walk) == [] <==> RegularFiles(entries, Gathered(entries, cfg.folder, cfg.recursive, walk)) == []
  {
    var files := RegularFiles(entries, Gathered(entries, cfg.folder, cfg.recursive, walk));
    SortPermutes(files, SortKey(entries, cfg));
    if files != [] {
      assert files[0] in multiset(files);
    }
  }

  /** A run that finds no regular file logs one line and changes nothing. */
  lemma NoFilesChangesNothing(entries: Entries, refusals: Refusals, cfg: Config, walk: seq<WalkDir>, confirmed: bool, cancel: seq<bool>)
    requires IsDir(entries, cfg.folder)
    requires RegularFiles(entries, Gathered(entries, cfg.folder, cfg.recursive, walk)) == []
    ensures var r := RunSpec(entries, refusals, cfg, walk, confirmed, cancel);
      r.outcome == NoFiles && r.entries == entries && r.progress == [] && r.log == [NoFilesFound(cfg.folder)]
  {
    PlanEmpty(entries, cfg, walk);
  }

  /**
   * A run whose confirmation is declined, or whose flag is already set at
   * the check before the loop, changes nothing and reports no progress.
   */
  lemma NotStartedChangesNothing(entries: Entries, refusals: Refusals, cfg: Config, walk: seq<WalkDir>, confirmed: bool, cancel: seq<bool>)
    requires IsDir(entries, cfg.folder)
    requires (!cfg.yes && !confirmed) || Canceled(cancel, 0)
    ensures var r := RunSpec(entries, refusals, cfg, walk, confirmed, cancel);
      && r.entries == entries
      && r.progress == []
      && (Plan(entries, cfg, walk) != [] ==>
            r.outcome == (if !cfg.yes && !confirmed then Declined else StoppedBeforeStart))
  {
  }

  /**
   * The plan is the filtered files, each a regular file, sorted by the
   * mode's key, with files of equal key kept in their gathered order.
   */
  lemma PlanIsSortedPermutation(entries: Entries, cfg: Config, walk: seq<WalkDir>)
    requires IsDir(entries, cfg.folder)
    ensures var files := RegularFiles(entries, Gathered(entries, cfg.folder, cfg.recursive, walk));
      var plan := Plan(entries, cfg, walk);
      && multiset(plan) == multiset(files)
      && Sorted(plan, SortKey(entries, cfg))
      && (forall k :: WithKey(plan, SortKey(entries, cfg), k) == WithKey(files, SortKey(entries, cfg), k))
      && (forall i :: 0 <= i < |plan| ==> IsFile(entries, plan[i]))
  {
    var files := RegularFiles(entries, Gathered(entries, cfg.folder, cfg.recursive, walk));
    var key := SortKey(entries, cfg);
    var plan := Plan(entries, cfg, walk);
    SortPermutes(files, key);
    SortSorts(files, key);
    forall k ensures WithKey(plan, key, k) == WithKey(files, key, k) {
      SortStable(files, key, k);
    }
    RegularFilesMembers(entries, Gathered(entries, cfg.folder, cfg.recursive, walk));
    forall i | 0 <= i < |plan| ensures IsFile(entries, plan[i]) {
      assert plan[i] in multiset(plan);
      assert plan[i] in files;
    }
  }

  /**
   * Increment mode without `no_increment`: the file at index i gets
   * `base + i * k`, so targets are spaced by k per position, for any k,
   * zero and negative included.
   */
  lemma IncrementSpacing(cfg: Config, origs: seq<int>, i: nat, j: nat)
    requires cfg.mode != "align-earliest" && !cfg.noIncrement
    requires i < |origs| && j < |origs|
    ensures var t := Targets(cfg, origs);
      t[0] == cfg.base && t[j] - t[i] == (j - i) * cfg.incrementSeconds
  {
    var k := cfg.incrementSeconds;
    assert j * k - i * k == (j - i) * k;
  }

  /** Increment mode with `no_increment`: every file gets `base`. */
  lemma NoIncrementCollapses(cfg: Config, origs: seq<int>)
    requires cfg.mode != "align-earliest" && cfg.noIncrement
    ensures forall i :: 0 <= i < |origs| ==> Targets(cfg, origs)[i] == cfg.base
  {
  }

  /**
   * Align-earliest mode: the file `min` picks gets `base` exactly, every
   * file keeps its distance to it, so all pairwise gaps between original
   * times are preserved and no target lies before `base`.
   */
  lemma AlignKeepsGaps(cfg: Config, origs: seq<int>)
    requires cfg.mode == "align-earliest" && origs != []
    ensures var e := FirstMin(origs);
      var t := Targets(cfg, origs);
      && t[e] == cfg.base
      && (forall i :: 0 <= i < |origs| ==> t[i] == cfg.base + (origs[i] - origs[e]) && t[i] >= cfg.base)
      && (forall i, j :: 0 <= i < |origs| && 0 <= j < |origs| ==> t[j] - t[i] == origs[j] - origs[i])
  {
  }

  /**
   * In align-earliest mode the plan is sorted by original time, so the
   * earliest file `min` picks is the first one planned, and it gets `base`.
   */
  lemma AlignEarliestIsFirst(entries: Entries, cfg: Config, walk: seq<WalkDir>)
    requires IsDir(entries, cfg.folder) && cfg.mode == "align-earliest"
    requires Plan(entries, cfg, walk) != []
    ensures var plan := Plan(entries, cfg, walk);
      FirstMin(Origins(entries, plan)) == 0 && Targets(cfg, Origins(entries, plan))[0] == cfg.base
  {
    var plan := Plan(entries, cfg, walk);
    PlanIsSortedPermutation(entries, cfg, walk);
    SortedFirstIsEarliest(plan, SortKey(entries, cfg), Origins(entries, plan));
  }

  /** In a sequence sorted by instants, the first element holds the least instant. */
  lemma SortedFirstIsEarliest(plan: seq<Path>, key: Path -> Key, origs: seq<int>)
    requires Sorted(plan, key) && |origs| == |plan| && plan != []
    requires forall i :: 0 <= i < |plan| ==> key(plan[i]) == Instant(origs[i])
    ensures FirstMin(origs) == 0
  {
    var e := FirstMin(origs);
    assert key(plan[0]) == Instant(origs[0]) && key(plan[e]) == Instant(origs[e]);
    assert e > 0 ==> KeyLe(key(plan[0]), key(plan[e]));
  }

  /** A dry batch leaves the file system as it was. */
  lemma {:induction false} DryBatchChangesNothing(entries: Entries, files: seq<Path>, targets: seq<int>, m: nat, refusals: Refusals)
    requires m <= |files| == |targets|
    requires forall j :: 0 <= j < m ==> InRange(targets[j])
    ensures AfterBatch(entries, files, targets, m, true, refusals) == entries
  {
    if m > 0 {
      DryBatchChangesNothing(entries, files, targets, m - 1, refusals);
    }
  }

  /** A dry run changes no file, whatever else happens. */
  lemma DryRunChangesNothing(entries: Entries, refusals: Refusals, cfg: Config, walk: seq<WalkDir>, confirmed: bool, cancel: seq<bool>)
    requires cfg.dryRun
    ensures RunSpec(entries, refusals, cfg, walk, confirmed, cancel).entries == entries
  {
    if IsDir(entries, cfg.folder) {
      var plan := Plan(entries, cfg, walk);
      var targets := Targets(cfg, Origins(entries, plan));
      DryBatchChangesNothing(entries, plan, targets, StopAt(cancel, targets, 0), refusals);
    }
  }

  /** One file's update touches that file only. */
  lemma FileAfterIsLocal(entries: Entries, p: Path, t: Time, dryRun: bool, refusals: Refusals)
    ensures var r := FileAfter(entries, p, t, dryRun, refusals);
      && r.Keys == entries.Keys
      && (forall q :: q in entries && q != p ==> r[q] == entries[q])
  {
    ExifWriteIsLocal(entries, p, t, dryRun, refusals);
    TimestampWriteIsLocal(ExifStep(entries, p, t, dryRun, refusals), p, t, dryRun, refusals);
  }

  /** What one file's update makes of it depends on that file's own entry only. */
  lemma FileAfterOwnEntry(e1: Entries, e2: Entries, p: Path, t: Time, dryRun: bool, refusals: Refusals)
    requires p in e1 && p in e2 && e1[p] == e2[p]
    ensures p in FileAfter(e1, p, t, dryRun, refusals) && p in FileAfter(e2, p, t, dryRun, refusals)
    ensures FileAfter(e1, p, t, dryRun, refusals)[p] == FileAfter(e2, p, t, dryRun, refusals)[p]
  {
    FileAfterIsLocal(e1, p, t, dryRun, refusals);
    FileAfterIsLocal(e2, p, t, dryRun, refusals);
  }

  /**
   * One file's update outside a dry run: when `os.utime` succeeds the file's
   * two times become `t` whether or not its EXIF write failed; a refused
   * `os.utime` keeps both times. A file whose name is not `.jpg`/`.jpeg`
   * keeps its metadata; a JPEG whose EXIF write succeeds reads back as `t`,
   * and one whose write fails keeps its metadata.
   */
  lemma FileAfterEffect(entries: Entries, p: Path, t: Time, refusals: Refusals)
    requires IsFile(entries, p)
    ensures var r := FileAfter(entries, p, t, false, refusals);
      var st := entries[p].state;
      && IsFile(r, p)
      && (p !in refusals.utime ==> r[p].state.mtime == t && r[p].state.atime == t)
      && (p in refusals.utime ==> r[p].state.mtime == st.mtime && r[p].state.atime == st.atime)
      && (!IsJpegName(p) ==> r[p].state.exif == st.exif)
      && (IsJpegName(p) && ExifWriteSucceeds(entries, p, refusals) ==> ExifDateTime(r[p].state.exif).Some? && ExifDateTime(r[p].state.exif).value == t)
      && (IsJpegName(p) && !ExifWriteSucceeds(entries, p, refusals) ==> r[p].state.exif == st.exif)
  {
    if IsJpegName(p) && ExifWriteSucceeds(entries, p, refusals) {
      UpdatedExifReadsBack(entries, p, t, refusals);
    }
  }

  /** Updating files 0..m-1 neither adds nor removes a path. */
  lemma {:induction false} BatchKeepsKeys(entries: Entries, files: seq<Path>, targets: seq<int>, m: nat, dryRun: bool, refusals: Refusals)
    requires m <= |files| == |targets|
    requires forall j :: 0 <= j < m ==> InRange(targets[j])
    ensures AfterBatch(entries, files, targets, m, dryRun, refusals).Keys == entries.Keys
  {
    if m > 0 {
      BatchKeepsKeys(entries, files, targets, m - 1, dryRun, refusals);
      FileAfterIsLocal(AfterBatch(entries, files, targets, m - 1, dryRun, refusals), files[m - 1], targets[m - 1], dryRun, refusals);
    }
  }

  /**
   * Updating files 0..m-1 leaves every other path as it was. Every path
   * is its own file here; links that make two paths one file are not modelled.
   */
  lemma {:induction false} BatchKeepsOthers(entries: Entries, files: seq<Path>, targets: seq<int>, m: nat, dryRun: bool, refusals: Refusals)
    requires m <= |files| == |targets|
    requires forall j :: 0 <= j < m ==> InRange(targets[j])
    ensures var r := AfterBatch(entries, files, targets, m, dryRun, refusals);
      forall q :: q in entries && q !in files[..m] ==> q in r && r[q] == entries[q]
  {
    if m > 0 {
      BatchKeepsOthers(entries, files, targets, m - 1, dryRun, refusals);
      var prev := AfterBatch(entries, files, targets, m - 1, dryRun, refusals);
      FileAfterIsLocal(prev, files[m - 1], targets[m - 1], dryRun, refusals);
      assert files[..m] == files[..m - 1] + [files[m - 1]];
    }
  }

  /**
   * After files 0..m-1 of a plan without repeated paths, file j < m carries
   * exactly what its own update made of its original entry.
   */
  lemma {:induction false} BatchEntryOf(entries: Entries, files: seq<Path>, targets: seq<int>, m: nat, j: nat, dryRun: bool, refusals: Refusals)
    requires j < m <= |files| == |targets|
    requires forall i :: 0 <= i < m ==> InRange(targets[i])
    requires Distinct(files)
    requires files[j] in entries
    ensures var r := AfterBatch(entries, files, targets, m, dryRun, refusals);
      var after := FileAfter(entries, files[j], targets[j], dryRun, refusals);
      files[j] in r && files[j] in after && r[files[j]] == after[files[j]]
  {
    var prev := AfterBatch(entries, files, targets, m - 1, dryRun, refusals);
    var p, t := files[m - 1], targets[m - 1];
    FileAfterIsLocal(prev, p, t, dryRun, refusals);
    if j == m - 1 {
      assert p !in files[..m - 1] by {
        forall i | 0 <= i < m - 1 ensures files[i] != p {
          assert files[i] != files[m - 1];
        }
      }
      BatchKeepsOthers(entries, files, targets, m - 1, dryRun, refusals);
      FileAfterOwnEntry(prev, entries, p, t, dryRun, refusals);
    } else {
      BatchEntryOf(entries, files, targets, m - 1, j, dryRun, refusals);
      assert files[j] != p;
    }
  }

  /**
   * A run that gets past the confirmation gate, over a plan without
   * repeated paths, stops before file m (m = n when it completes): files
   * 0..m-1 carry what their updates with their own targets made of them,
   * files m..n-1 and every path outside the plan are untouched (paths
   * being separate files, as the model has them).
   */
  lemma RunUpdatesPrefix(entries: Entries, refusals: Refusals, cfg: Config, walk: seq<WalkDir>, confirmed: bool, cancel: seq<bool>)
    requires IsDir(entries, cfg.folder)
    requires Plan(entries, cfg, walk) != [] && Distinct(Plan(entries, cfg, walk))
    requires (cfg.yes || confirmed) && !Canceled(cancel, 0)
    ensures var plan := Plan(entries, cfg, walk);
      var targets := Targets(cfg, Origins(entries, plan));
      var m := StopAt(cancel, targets, 0);
      var r := RunSpec(entries, refusals, cfg, walk, confirmed, cancel);
      && r.entries.Keys == entries.Keys
      && (forall j :: 0 <= j < |plan| ==> IsFile(entries, plan[j]))
      && (forall j :: 0 <= j < m ==>
            var after := FileAfter(entries, plan[j], targets[j], cfg.dryRun, refusals);
            plan[j] in after && r.entries[plan[j]] == after[plan[j]])
      && (forall j :: m <= j < |plan| ==> r.entries[plan[j]] == entries[plan[j]])
      && (forall q :: q in entries && q !in plan ==> r.entries[q] == entries[q])
  {
    var plan := Plan(entries, cfg, walk);
    var targets := Targets(cfg, Origins(entries, plan));
    var m := StopAt(cancel, targets, 0);
    PlanIsSortedPermutation(entries, cfg, walk);
    var after := AfterBatch(entries, plan, targets, m, cfg.dryRun, refusals);
    assert RunSpec(entries, refusals, cfg, walk, confirmed, cancel).entries == after;
    BatchKeepsKeys(entries, plan, targets, m, cfg.dryRun, refusals);
    BatchKeepsOthers(entries, plan, targets, m, cfg.dryRun, refusals);
    forall j | 0 <= j < m
      ensures var a := FileAfter(entries, plan[j], targets[j], cfg.dryRun, refusals);
        plan[j] in a && after[plan[j]] == a[plan[j]]
    {
      BatchEntryOf(entries, plan, targets, m, j, cfg.dryRun, refusals);
    }
    forall j | m <= j < |plan| ensures after[plan[j]] == entries[plan[j]] {
      assert plan[j] !in plan[..m] by {
        forall i | 0 <= i < m ensures plan[i] != plan[j] {
          assert plan[i] != plan[j];
        }
      }
    }
    forall q | q in entries && q !in plan ensures after[q] == entries[q] {
      assert q !in plan[..m];
    }
  }

  /**
   * A run that gets past the confirmation gate and stops before file m
   * reports progress (1, n), ..., (m, n), one report per file processed.
   */
  lemma RunReportsPrefix(entries: Entries, refusals: Refusals, cfg: Config, walk: seq<WalkDir>, confirmed: bool, cancel: seq<bool>)
    requires IsDir(entries, cfg.folder)
    requires Plan(entries, cfg, walk) != []
    requires (cfg.yes || confirmed) && !Canceled(cancel, 0)
    ensures var plan := Plan(entries, cfg, walk);
      var m := StopAt(cancel, Targets(cfg, Origins(entries, plan)), 0);
      var r := RunSpec(entries, refusals, cfg, walk, confirmed, cancel);
      && |r.progress| == m
      && (forall i :: 0 <= i < m ==> r.progress[i] == Progress(i + 1, |plan|))
  {
  }

  /** A run that reaches the loop passed every gate, and the rest is `Started`. */
  lemma RunStarted(entries: Entries, refusals: Refusals, cfg: Config, walk: seq<WalkDir>, confirmed: bool, cancel: seq<bool>)
    requires var o := RunSpec(entries, refusals, cfg, walk, confirmed, cancel).outcome;
      o.CanceledAt? || o.Overflowed? || o.Completed?
    ensures IsDir(entries, cfg.folder)
    ensures Plan(entries, cfg, walk) != [] && (cfg.yes || confirmed) && !Canceled(cancel, 0)
    ensures var plan := Plan(entries, cfg, walk);
      var s := Started(entries, refusals, cfg, plan, cancel);
      RunSpec(entries, refusals, cfg, walk, confirmed, cancel) == s.(log := [FilesFound(|plan|, Preview(plan))] + s.log)
  {
  }

  /**
   * Cancellation seen at the check before file m: file m exists, the flag
   * is set at its check and was unset at every earlier one.
   */
  lemma CancellationBoundary(entries: Entries, refusals: Refusals, cfg: Config, walk: seq<WalkDir>, confirmed: bool, cancel: seq<bool>, m: nat)
    requires RunSpec(entries, refusals, cfg, walk, confirmed, cancel).outcome == CanceledAt(m)
    ensures IsDir(entries, cfg.folder)
    ensures m < |Plan(entries, cfg, walk)|
    ensures Canceled(cancel, m + 1)
    ensures forall i :: 0 <= i <= m ==> !Canceled(cancel, i)
  {
    RunStarted(entries, refusals, cfg, walk, confirmed, cancel);
    var plan := Plan(entries, cfg, walk);
    var targets := Targets(cfg, Origins(entries, plan));
    assert Started(entries, refusals, cfg, plan, cancel).outcome == CanceledAt(m);
    BatchCanceledAt(cancel, targets, m);
  }

  /** A batch canceled before file m: the flag was unset at the checks before files 0..m-1 and set before file m. */
  lemma BatchCanceledAt(cancel: seq<bool>, targets: seq<int>, m: nat)
    requires BatchOutcome(cancel, targets) == CanceledAt(m)
    ensures m == StopAt(cancel, targets, 0) && m < |targets|
    ensures Canceled(cancel, m + 1)
    ensures forall i :: 0 < i <= m ==> !Canceled(cancel, i)
  {
    forall i | 0 < i <= m ensures !Canceled(cancel, i) {
      assert Proceeds(cancel, targets, i - 1);
    }
  }

  /**
   * A run canceled before file m has reported progress for files 0..m-1
   * only, the last report being (m, n), and its last log line is the
   * cancellation.
   */
  lemma CanceledRunEnds(entries: Entries, refusals: Refusals, cfg: Config, walk: seq<WalkDir>, confirmed: bool, cancel: seq<bool>, m: nat)
    requires RunSpec(entries, refusals, cfg, walk, confirmed, cancel).outcome == CanceledAt(m)
    ensures IsDir(entries, cfg.folder)
    ensures var r := RunSpec(entries, refusals, cfg, walk, confirmed, cancel);
      && |r.progress| == m
      && (m > 0 ==> r.progress[m - 1] == Progress(m, |Plan(entries, cfg, walk)|))
      && r.log != [] && r.log[|r.log| - 1] == CanceledByUser
  {
    RunStarted(entries, refusals, cfg, walk, confirmed, cancel);
    var plan := Plan(entries, cfg, walk);
    var s := Started(entries, refusals, cfg, plan, cancel);
    assert StopAt(cancel, Targets(cfg, Origins(entries, plan)), 0) == m;
    assert s.progress == Ramp(m, |plan|);
    assert s.log[|s.log| - 1] == CanceledByUser;
  }

  /**
   * Without cancellation or overflow the run reports (1, n), ..., (n, n),
   * strictly increasing.
   */
  lemma CompletedReportsAll(entries: Entries, refusals: Refusals, cfg: Config, walk: seq<WalkDir>, confirmed: bool, cancel: seq<bool>)
    requires RunSpec(entries, refusals, cfg, walk, confirmed, cancel).outcome == Completed
    ensures IsDir(entries, cfg.folder)
    ensures var plan := Plan(entries, cfg, walk);
      var r := RunSpec(entries, refusals, cfg, walk, confirmed, cancel);
      && |r.progress| == |plan|
      && (forall i :: 0 <= i < |plan| ==> r.progress[i] == Progress(i + 1, |plan|))
      && (forall i, j :: 0 <= i < j < |r.progress| ==> r.progress[i].done < r.progress[j].done)
  {
    RunStarted(entries, refusals, cfg, walk, confirmed, cancel);
    var plan := Plan(entries, cfg, walk);
    var s := Started(entries, refusals, cfg, plan, cancel);
    assert s.outcome == Completed;
    assert StopAt(cancel, Targets(cfg, Origins(entries, plan)), 0) == |plan|;
    assert s.progress == Ramp(|plan|, |plan|);
  }

  /** A completed run ends by logging that it is done, or that the dry run is complete. */
  lemma CompletedEndsWithDone(entries: Entries, refusals: Refusals, cfg: Config, walk: seq<WalkDir>, confirmed: bool, cancel: seq<bool>)
    requires RunSpec(entries, refusals, cfg, walk, confirmed, cancel).outcome == Completed
    ensures var r := RunSpec(entries, refusals, cfg, walk, confirmed, cancel);
      r.log != [] && r.log[|r.log| - 1] == (if cfg.dryRun then DryRunComplete else Done)
  {
    RunStarted(entries, refusals, cfg, walk, confirmed, cancel);
    var plan := Plan(entries, cfg, walk);
    var s := Started(entries, refusals, cfg, plan, cancel);
    assert s.outcome == Completed;
    assert s.log[|s.log| - 1] == (if cfg.dryRun then DryRunComplete else Done);
  }

  /** Without repeated paths, `multiset(s)` counts each path at most once. */
  lemma {:induction false} DistinctCounts<T>(s: seq<T>)
    ensures Distinct(s) <==> forall x :: multiset(s)[x] <= 1
  {
    if s != [] {
      var init, y := s[..|s| - 1], s[|s| - 1];
      DistinctCounts(init);
      assert s == init + [y];
      assert multiset(s) == multiset(init) + multiset{y};
      if Distinct(s) {
        assert Distinct(init) by {
          forall i, j | 0 <= i < j < |init| ensures init[i] != init[j] {
            assert s[i] != s[j];
          }
        }
        assert y !in init by {
          forall i | 0 <= i < |init| ensures init[i] != y {
            assert s[i] != s[|s| - 1];
          }
        }
      }
      if forall x :: multiset(s)[x] <= 1 {
        assert forall x :: multiset(init)[x] <= 1 by {
          forall x ensures multiset(init)[x] <= 1 {
            assert multiset(s)[x] == multiset(init)[x] + (if x == y then 1 else 0);
          }
        }
        assert multiset(s)[y] <= 1;
        assert y !in multiset(init);
        forall i, j | 0 <= i < j < |s| ensures s[i] != s[j] {
          if j < |s| - 1 {
            assert init[i] != init[j];
          } else {
            assert init[i] in multiset(init);
          }
        }
      }
    }
  }

  /**
   * Without `recursive`, a folder whose listing has no repeated name and
   * no name with a slash (as `os.listdir` gives) yields a plan without
   * repeated path strings, which RunUpdatesPrefix asks for. Distinct
   * strings can still name one file through a link, which the model
   * does not capture.
   */
  lemma ListingPlanIsDistinct(entries: Entries, cfg: Config, walk: seq<WalkDir>)
    requires IsDir(entries, cfg.folder) && !cfg.recursive
    requires Distinct(entries[cfg.folder].names)
    requires forall i :: 0 <= i < |entries[cfg.folder].names| ==> '/' !in entries[cfg.folder].names[i]
    ensures Distinct(Plan(entries, cfg, walk))
  {
    var names := entries[cfg.folder].names;
    var joined := Joined(cfg.folder, names);
    assert Distinct(joined) by {
      forall i, j | 0 <= i < j < |joined| ensures joined[i] != joined[j] {
        if joined[i] == joined[j] {
          JoinInjective(cfg.folder, names[i], names[j]);
        }
      }
    }
    DistinctCounts(joined);
    var gathered := Gathered(entries, cfg.folder, false, walk);
    var files := RegularFiles(entries, gathered);
    forall x ensures multiset(files)[x] <= 1 {
      RegularFilesCount(entries, gathered, x);
      RegularFilesCount(entries, joined, x);
    }
    PlanIsSortedPermutation(entries, cfg, walk);
    DistinctCounts(files);
    DistinctCounts(Plan(entries, cfg, walk));
  }
}

/**
 * `FileTimestampManager`: collecting the files of a folder, resolving a
 * file's original time, and setting a file's access and modification times.
 */
module FileOps {
  import opened Wrappers
  import opened Calendar
  import opened Paths
  import opened Os
  import opened ExifUtils

  /** One directory as `os.walk` yields it: its path and the names of the files in it. */
  datatype WalkDir = WalkDir(root: Path, filenames: seq<Name>)

  /**
   * `os.path.join(root, n)` for every name, in order. Its ensures only
   * unfold the body for the proofs that use it; it specifies nothing.
   */
  function Joined(root: Path, names: seq<Name>): (r: seq<Path>)
    ensures |r| == |names|
    ensures forall i :: 0 <= i < |names| ==> r[i] == Join(root, names[i])
  {
    seq(|names|, i requires 0 <= i < |names| => Join(root, names[i]))
  }

  /** Every file name of the walk joined onto its directory, directory by directory. */
  function Walked(walk: seq<WalkDir>): seq<Path> {
    if walk == [] then []
    else
      var last := walk[|walk| - 1];
      Walked(walk[..|walk| - 1]) + Joined(last.root, last.filenames)
  }

  /** The paths that `os.path.isfile` accepts, in their order. */
  function RegularFiles(entries: Entries, paths: seq<Path>): seq<Path> {
    if paths == [] then []
    else
      var last := paths[|paths| - 1];
      RegularFiles(entries, paths[..|paths| - 1]) + (if IsFile(entries, last) then [last] else [])
  }

  /** What `gather_files(folder, recursive)` returns, given what `os.walk(folder)` yields. */
  function Gathered(entries: Entries, folder: Path, recursive: bool, walk: seq<WalkDir>): seq<Path>
    requires !recursive ==> IsDir(entries, folder)
  {
    if recursive then Walked(walk)
    else RegularFiles(entries, Joined(folder, entries[folder].names))
  }

  /**
   * `gather_files`: with `recursive`, every file name of the walk joined
   * onto its directory; otherwise the entries of the folder's listing that
   * are regular files.
   */
  method GatherFiles(fs: FileSystem, folder: Path, recursive: bool, walk: seq<WalkDir>) returns (files: seq<Path>)
    requires !recursive ==> IsDir(fs.entries, folder)
    ensures files == Gathered(fs.entries, folder, recursive, walk)
  {
    files := [];
    if recursive {
      for w := 0 to |walk|
        invariant files == Walked(walk[..w])
      {
        var dir := walk[w];
        for k := 0 to |dir.filenames|
          invariant files == Walked(walk[..w]) + Joined(dir.root, dir.filenames[..k])
        {
          files := files + [Join(dir.root, dir.filenames[k])];
        }
        assert dir.filenames[..|dir.filenames|] == dir.filenames;
        assert walk[..w + 1][..w] == walk[..w];
      }
      assert walk[..|walk|] == walk;
    } else {
      var names := fs.entries[folder].names;
      for k := 0 to |names|
        invariant files == RegularFiles(fs.entries, Joined(folder, names[..k]))
      {
        var path := Join(folder, names[k]);
        if IsFile(fs.entries, path) {
          files := files + [path];
        }
        assert Joined(folder, names[..k + 1])[..k] == Joined(folder, names[..k]);
      }
      assert names[..|names|] == names;
    }
  }

  /** The filter keeps exactly the regular files among the paths. */
  lemma {:induction false} RegularFilesMembers(entries: Entries, paths: seq<Path>)
    ensures forall p :: p in RegularFiles(entries, paths) <==> p in paths && IsFile(entries, p)
  {
    if paths != [] {
      RegularFilesMembers(entries, paths[..|paths| - 1]);
      assert paths == paths[..|paths| - 1] + [paths[|paths| - 1]];
    }
  }

  /** The filter keeps the order of the paths: filtering a concatenation filters each part. */
  lemma {:induction false} RegularFilesAppend(entries: Entries, a: seq<Path>, b: seq<Path>)
    ensures RegularFiles(entries, a + b) == RegularFiles(entries, a) + RegularFiles(entries, b)
  {
    if b == [] {
      assert a + b == a;
    } else {
      RegularFilesAppend(entries, a, b[..|b| - 1]);
      assert (a + b)[..|a + b| - 1] == a + b[..|b| - 1];
      assert (a + b)[|a + b| - 1] == b[|b| - 1];
    }
  }

  /** Filtering paths that are all regular files changes nothing. */
  lemma {:induction false} RegularFilesOfFiles(entries: Entries, paths: seq<Path>)
    requires forall i :: 0 <= i < |paths| ==> IsFile(entries, paths[i])
    ensures RegularFiles(entries, paths) == paths
  {
    if paths != [] {
      RegularFilesOfFiles(entries, paths[..|paths| - 1]);
    }
  }

  /** The filter never keeps a path twice more often than it occurs. */
  lemma {:induction false} RegularFilesCount(entries: Entries, paths: seq<Path>, p: Path)
    ensures multiset(RegularFiles(entries, paths))[p] == if IsFile(entries, p) then multiset(paths)[p] else 0
  {
    if paths != [] {
      RegularFilesCount(entries, paths[..|paths| - 1], p);
      assert paths == paths[..|paths| - 1] + [paths[|paths| - 1]];
    }
  }

  /**
   * Without `recursive`, gathering yields exactly the regular files among
   * the folder's children, in listing order, and the runner's own
   * `isfile` filter then removes nothing.
   */
  lemma ListingGather(entries: Entries, folder: Path, walk: seq<WalkDir>)
    requires IsDir(entries, folder)
    ensures var names := entries[folder].names;
      forall p :: p in Gathered(entries, folder, false, walk) <==>
        IsFile(entries, p) && exists i :: 0 <= i < |names| && p == Join(folder, names[i])
    ensures RegularFiles(entries, Gathered(entries, folder, false, walk)) == Gathered(entries, folder, false, walk)
  {
    var names := entries[folder].names;
    var joined := Joined(folder, names);
    RegularFilesMembers(entries, joined);
    var g := Gathered(entries, folder, false, walk);
    forall p ensures p in g <==> IsFile(entries, p) && exists i :: 0 <= i < |names| && p == Join(folder, names[i]) {
      if p in joined {
        var i :| 0 <= i < |joined| && joined[i] == p;
        assert p == Join(folder, names[i]);
      }
      if exists i :: 0 <= i < |names| && p == Join(folder, names[i]) {
        var i :| 0 <= i < |names| && p == Join(folder, names[i]);
        assert joined[i] == p;
      }
    }
    forall i | 0 <= i < |g| ensures IsFile(entries, g[i]) {
      assert g[i] in g;
    }
    RegularFilesOfFiles(entries, g);
  }

  /**
   * With `recursive`, gathering keeps every name of every walked directory,
   * with no `isfile` filter: the result does not depend on the file system.
   */
  lemma {:induction false} WalkGather(entries: Entries, folder: Path, walk: seq<WalkDir>, w: nat, k: nat)
    requires w < |walk| && k < |walk[w].filenames|
    ensures Join(walk[w].root, walk[w].filenames[k]) in Gathered(entries, folder, true, walk)
  {
    var n := |walk|;
    if w < n - 1 {
      WalkGather(entries, folder, walk[..n - 1], w, k);
    } else {
      assert Joined(walk[w].root, walk[w].filenames)[k] == Join(walk[w].root, walk[w].filenames[k]);
    }
  }

  /** Conversely, every path the recursive gather returns is a file name of the walk joined onto its directory. */
  lemma {:induction false} WalkGatherOnly(entries: Entries, folder: Path, walk: seq<WalkDir>, p: Path)
    requires p in Gathered(entries, folder, true, walk)
    ensures exists w, k :: 0 <= w < |walk| && 0 <= k < |walk[w].filenames| && p == Join(walk[w].root, walk[w].filenames[k])
  {
    var n := |walk|;
    var last := walk[n - 1];
    if p in Walked(walk[..n - 1]) {
      WalkGatherOnly(entries, folder, walk[..n - 1], p);
      var w, k :| 0 <= w < n - 1 && 0 <= k < |walk[..n - 1][w].filenames|
        && p == Join(walk[..n - 1][w].root, walk[..n - 1][w].filenames[k]);
      assert walk[..n - 1][w] == walk[w];
    } else {
      var k :| 0 <= k < |last.filenames| && Joined(last.root, last.filenames)[k] == p;
      assert p == Join(walk[n - 1].root, walk[n - 1].filenames[k]);
    }
  }

  /** `get_original_time` for a regular file: the EXIF original time of a JPEG when it reads, else the mtime. */
  function OriginalTime(path: Path, st: FileState): (r: Time)
    ensures r == st.mtime || (IsJpegName(path) && ExifDateTime(st.exif) == Some(r))
    ensures !IsJpegName(path) || ExifDateTime(st.exif).None? ==> r == st.mtime
  {
    if IsJpegName(path) then
      match ExifDateTime(st.exif)
      case Some(t) => t
      case None => st.mtime
    else st.mtime
  }

  /** A JPEG whose `DateTimeOriginal` reads as `t` has original time `t`, whatever its mtime. */
  lemma OriginalTimePrefersExif(path: Path, st: FileState, t: Time)
    requires IsJpegName(path) && ExifDateTime(st.exif) == Some(t)
    ensures forall m: Time :: OriginalTime(path, st.(mtime := m)) == t
  {
  }

  /**
   * A file that is not a JPEG, or a JPEG whose EXIF read yields nothing,
   * has its mtime as original time; the metadata of a non-JPEG is never
   * looked at.
   */
  lemma OriginalTimeFallsBackToMtime(path: Path, st: FileState)
    ensures !IsJpegName(path) || ExifDateTime(st.exif).None? ==> OriginalTime(path, st) == st.mtime
    ensures !IsJpegName(path) ==> forall blob :: OriginalTime(path, st.(exif := blob)) == st.mtime
  {
  }

  /** Whether `os.utime(path, ...)` would succeed. */
  predicate TimestampWriteSucceeds(entries: Entries, path: Path, refusals: Refusals) {
    path in entries && path !in refusals.utime
  }

  /**
   * The file system after `update_file_timestamp(path, t, dry_run)`. The
   * times of directories and other non-files are not part of the model.
   */
  function TimestampAfter(entries: Entries, path: Path, t: Time, dryRun: bool, refusals: Refusals): Entries {
    if dryRun || !TimestampWriteSucceeds(entries, path, refusals) then entries
    else match entries[path]
      case File(st) => entries[path := File(st.(mtime := t, atime := t))]
      case _ => entries
  }

  /** What `update_file_timestamp` logs. */
  function TimestampEvent(entries: Entries, path: Path, t: Time, dryRun: bool, refusals: Refusals): Event {
    if dryRun then WouldSetTimestamp(path, t)
    else if TimestampWriteSucceeds(entries, path, refusals) then TimestampSet(path, t)
    else TimestampError(path)
  }

  /**
   * `update_file_timestamp`: in a dry run only logs; otherwise sets the
   * access and modification times to `t` together, and logs a failure
   * instead of raising it.
   */
  method UpdateFileTimestamp(fs: FileSystem, sink: Sink, path: Path, t: Time, dryRun: bool)
    modifies fs, sink
    ensures fs.entries == TimestampAfter(old(fs.entries), path, t, dryRun, fs.refusals)
    ensures sink.log == old(sink.log) + [TimestampEvent(old(fs.entries), path, t, dryRun, fs.refusals)]
    ensures sink.progress == old(sink.progress)
  {
    if dryRun {
      sink.Log(WouldSetTimestamp(path, t));
      return;
    }
    if path !in fs.entries || path in fs.refusals.utime {
      sink.Log(TimestampError(path));
      return;
    }
    match fs.entries[path] {
      case File(st) =>
        fs.entries := fs.entries[path := File(st.(mtime := t, atime := t))];
      case Dir(_) =>
      case Special =>
    }
    sink.Log(TimestampSet(path, t));
  }

  /**
   * A timestamp write touches one file: a dry run or a refused write
   * changes nothing, a successful one sets that file's two times to `t`
   * and keeps its metadata.
   */
  lemma TimestampWriteIsLocal(entries: Entries, path: Path, t: Time, dryRun: bool, refusals: Refusals)
    ensures var r := TimestampAfter(entries, path, t, dryRun, refusals);
      && r.Keys == entries.Keys
      && (forall p :: p in entries && p != path ==> r[p] == entries[p])
      && (dryRun || !TimestampWriteSucceeds(entries, path, refusals) ==> r == entries)
      && (!dryRun && TimestampWriteSucceeds(entries, path, refusals) && IsFile(entries, path) ==>
            r[path] == File(FileState(t, t, entries[path].state.exif)))
  {
  }
}

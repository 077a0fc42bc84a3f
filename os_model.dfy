/**
 * The operating-system state the program reads and writes: a file system
 * of directories and files, each file carrying its modification and access
 * times and, when it is an image, its EXIF metadata; and the two callbacks
 * through which a run reports, the log and the progress channel.
 */
module Os {
  import opened Calendar
  import opened Paths

  /** The EXIF directories (IFDs) of the metadata mapping. */
  datatype Ifd = Zeroth | ExifIfd | Gps | Interop | First

  /** A numeric EXIF tag identifier. */
  type Tag = int

  /** The decoded EXIF metadata: for each IFD, its tags and their text values. */
  type TagMap = map<Ifd, map<Tag, string>>

  /** What opening a file as an image and decoding its EXIF segment gives. */
  datatype ExifBlob =
    | NotAnImage          // the image library cannot open the file
    | NoExif              // an image with no (or an empty) EXIF segment
    | Undecodable         // an EXIF segment the decoder rejects
    | Tags(ifds: TagMap)  // a decodable EXIF segment

  datatype FileState = FileState(mtime: Time, atime: Time, exif: ExifBlob)

  /** A regular file, a directory with its listing (in listing order), or anything else. */
  datatype Entry = File(state: FileState) | Dir(names: seq<Name>) | Special

  type Entries = map<Path, Entry>

  /** `os.path.isdir` */
  predicate IsDir(entries: Entries, p: Path) {
    p in entries && entries[p].Dir?
  }

  /** `os.path.isfile` */
  predicate IsFile(entries: Entries, p: Path) {
    p in entries && entries[p].File?
  }

  /**
   * The writes the system refuses: saving a re-encoded image to these
   * paths fails, and so does setting these paths' times.
   */
  datatype Refusals = Refusals(save: set<Path>, utime: set<Path>)

  /** What a run reports through its log callback. */
  datatype Event =
    | FolderNotFound(folder: Path)
    | NoFilesFound(folder: Path)
    | FilesFound(count: nat, first: seq<Path>)
    | OperationDeclined
    | CanceledBeforeStart
    | EarliestFile(path: Path, original: Time)
    | OffsetApplied(seconds: int)
    | CanceledByUser
    | WouldUpdateExif(path: Path, t: Time)
    | ExifUpdated(path: Path, t: Time)
    | ExifError(path: Path)
    | WouldSetTimestamp(path: Path, t: Time)
    | TimestampSet(path: Path, t: Time)
    | TimestampError(path: Path)
    | Done
    | DryRunComplete

  /** A progress report: files completed, files in the batch. */
  datatype Progress = Progress(done: nat, total: nat)

  class FileSystem {
    var entries: Entries
    const refusals: Refusals

    constructor (entries: Entries, refusals: Refusals)
      ensures this.entries == entries && this.refusals == refusals
    {
      this.entries := entries;
      this.refusals := refusals;
    }
  }

  /** The log and progress callbacks a front end passes to a run. */
  class Sink {
    var log: seq<Event>
    var progress: seq<Progress>

    constructor ()
      ensures log == [] && progress == []
    {
      log := [];
      progress := [];
    }

    method Log(e: Event)
      modifies this
      ensures log == old(log) + [e] && progress == old(progress)
    {
      log := log + [e];
    }

    method Report(done: nat, total: nat)
      modifies this
      ensures progress == old(progress) + [Progress(done, total)] && log == old(log)
    {
      progress := progress + [Progress(done, total)];
    }
  }
}

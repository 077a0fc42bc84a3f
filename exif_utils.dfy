/**
 * `ExifHandler`: reading `DateTimeOriginal` from a file's EXIF metadata and
 * writing the three date tags. The metadata is the decoded tag mapping;
 * the byte-level EXIF codec is not part of this model.
 */
module ExifUtils {
  import opened Wrappers
  import opened Calendar
  import opened Paths
  import opened Os
  import opened DateTimeText

  /** EXIF IFD tag 0x9003: when the picture was taken. */
  const DateTimeOriginalTag: Tag := 36867
  /** EXIF IFD tag 0x9004: when the picture was digitized. */
  const DateTimeDigitizedTag: Tag := 36868
  /** 0th IFD tag 0x0132: when the file was last changed. */
  const DateTimeTag: Tag := 306

  /** The three (IFD, tag) slots a write sets. */
  predicate IsDateSlot(ifd: Ifd, tag: Tag) {
    (ifd == ExifIfd && (tag == DateTimeOriginalTag || tag == DateTimeDigitizedTag))
    || (ifd == Zeroth && tag == DateTimeTag)
  }

  /** `ExifHandler.get_exif_datetime`: the parsed `DateTimeOriginal`, or None. */
  function ExifDateTime(blob: ExifBlob): Option<Time> {
    match blob
    case Tags(ifds) =>
      if ExifIfd in ifds && DateTimeOriginalTag in ifds[ExifIfd] && ifds[ExifIfd][DateTimeOriginalTag] != []
      then Parse(ifds[ExifIfd][DateTimeOriginalTag])
      else None
    case _ => None
  }

  /**
   * The read gives a time exactly when the metadata decodes, holds a
   * `DateTimeOriginal` in its EXIF IFD, and that text parses; an absent
   * or undecodable segment, a missing or empty tag, and text that does not
   * parse all give None rather than an error.
   */
  lemma ExifDateTimeReadsOriginal(blob: ExifBlob, t: Time)
    ensures ExifDateTime(blob) == Some(t) <==>
      && blob.Tags?
      && ExifIfd in blob.ifds
      && DateTimeOriginalTag in blob.ifds[ExifIfd]
      && Parse(blob.ifds[ExifIfd][DateTimeOriginalTag]) == Some(t)
  {
  }

  /**
   * The in-place edit of the decoded mapping: create the EXIF and 0th IFDs
   * when missing, then set the three date slots to `stamp`.
   */
  function SetDateTags(ifds: TagMap, stamp: string): (r: TagMap)
    ensures r.Keys == ifds.Keys + {ExifIfd, Zeroth}
    ensures DateTimeOriginalTag in r[ExifIfd] && r[ExifIfd][DateTimeOriginalTag] == stamp
    ensures DateTimeDigitizedTag in r[ExifIfd] && r[ExifIfd][DateTimeDigitizedTag] == stamp
    ensures DateTimeTag in r[Zeroth] && r[Zeroth][DateTimeTag] == stamp
  {
    var withExif := if ExifIfd in ifds then ifds else ifds[ExifIfd := map[]];
    var both := if Zeroth in withExif then withExif else withExif[Zeroth := map[]];
    both[ExifIfd := both[ExifIfd][DateTimeOriginalTag := stamp][DateTimeDigitizedTag := stamp]]
        [Zeroth := both[Zeroth][DateTimeTag := stamp]]
  }

  /**
   * The edit keeps every other tag of every IFD, and adds no tag besides
   * the three date slots.
   */
  lemma SetDateTagsKeepsOtherTags(ifds: TagMap, stamp: string)
    ensures var r := SetDateTags(ifds, stamp);
      forall ifd, tag :: ifd in ifds && tag in ifds[ifd] && !IsDateSlot(ifd, tag) ==>
        tag in r[ifd] && r[ifd][tag] == ifds[ifd][tag]
    ensures var r := SetDateTags(ifds, stamp);
      forall ifd, tag :: ifd in r && tag in r[ifd] && !IsDateSlot(ifd, tag) ==>
        ifd in ifds && tag in ifds[ifd]
  {
  }

  /** The mapping to be re-encoded, or None when opening or decoding the file raises. */
  function EditedTags(blob: ExifBlob, stamp: string): Option<TagMap> {
    match blob
    case NotAnImage => None
    case Undecodable => None
    case NoExif => Some(SetDateTags(map[], stamp))
    case Tags(ifds) => Some(SetDateTags(ifds, stamp))
  }

  /** Whether `update_exif_date` would save new metadata to `path`. */
  predicate ExifWriteSucceeds(entries: Entries, path: Path, refusals: Refusals) {
    && IsFile(entries, path)
    && !entries[path].state.exif.NotAnImage?
    && !entries[path].state.exif.Undecodable?
    && path !in refusals.save
  }

  /** The file system after `update_exif_date(path, t, dry_run)`. */
  function ExifAfter(entries: Entries, path: Path, t: Time, dryRun: bool, refusals: Refusals): Entries {
    if dryRun || !ExifWriteSucceeds(entries, path, refusals) then entries
    else
      var st := entries[path].state;
      entries[path := File(st.(exif := Tags(EditedTags(st.exif, Format(t)).value)))]
  }

  /** What `update_exif_date` logs. */
  function ExifEvent(entries: Entries, path: Path, t: Time, dryRun: bool, refusals: Refusals): Event {
    if dryRun then WouldUpdateExif(path, t)
    else if ExifWriteSucceeds(entries, path, refusals) then ExifUpdated(path, t)
    else ExifError(path)
  }

  /**
   * `ExifHandler.update_exif_date`. In a dry run it only logs. Otherwise it
   * decodes the file's metadata, sets the date slots, and saves; a failure
   * at any step is logged and the file keeps its old metadata.
   */
  method UpdateExifDate(fs: FileSystem, sink: Sink, path: Path, t: Time, dryRun: bool)
    modifies fs, sink
    ensures fs.entries == ExifAfter(old(fs.entries), path, t, dryRun, fs.refusals)
    ensures sink.log == old(sink.log) + [ExifEvent(old(fs.entries), path, t, dryRun, fs.refusals)]
    ensures sink.progress == old(sink.progress)
  {
    if dryRun {
      sink.Log(WouldUpdateExif(path, t));
      return;
    }
    if !IsFile(fs.entries, path) {
      sink.Log(ExifError(path));
      return;
    }
    var st := fs.entries[path].state;
    var ifds: TagMap;
    match st.exif {
      case NotAnImage =>
        sink.Log(ExifError(path));
        return;
      case Undecodable =>
        sink.Log(ExifError(path));
        return;
      case NoExif =>
        ifds := map[];
      case Tags(m) =>
        ifds := m;
    }
    ifds := EditTags(ifds, Format(t));
    if path in fs.refusals.save {
      sink.Log(ExifError(path));
      return;
    }
    fs.entries := fs.entries[path := File(st.(exif := Tags(ifds)))];
    sink.Log(ExifUpdated(path, t));
  }

  /** The tags of one IFD with each of `names` set to `stamp`, in order. */
  function SetEach(tags: map<Tag, string>, names: seq<Tag>, stamp: string): map<Tag, string> {
    if names == [] then tags
    else SetEach(tags, names[..|names| - 1], stamp)[names[|names| - 1] := stamp]
  }

  /**
   * The edit as the source performs it: `setdefault` for the two IFDs, a
   * loop over the two EXIF date tags, then the 0th IFD's `DateTime`.
   */
  method EditTags(decoded: TagMap, stamp: string) returns (ifds: TagMap)
    ensures ifds == SetDateTags(decoded, stamp)
  {
    ifds := decoded;
    if ExifIfd !in ifds {
      ifds := ifds[ExifIfd := map[]];
    }
    if Zeroth !in ifds {
      ifds := ifds[Zeroth := map[]];
    }
    ghost var base := ifds;
    var names := [DateTimeOriginalTag, DateTimeDigitizedTag];
    for i := 0 to |names|
      invariant ifds == base[ExifIfd := SetEach(base[ExifIfd], names[..i], stamp)]
    {
      assert names[..i + 1][..i] == names[..i];
      ifds := ifds[ExifIfd := ifds[ExifIfd][names[i] := stamp]];
    }
    assert names[..|names|] == names;
    ifds := ifds[Zeroth := ifds[Zeroth][DateTimeTag := stamp]];
  }

  /** A dry run leaves the metadata as it was. */
  lemma DryRunKeepsExif(entries: Entries, path: Path, t: Time, refusals: Refusals)
    ensures ExifAfter(entries, path, t, true, refusals) == entries
  {
  }

  /** A write touches one file, and only its metadata. */
  lemma ExifWriteIsLocal(entries: Entries, path: Path, t: Time, dryRun: bool, refusals: Refusals)
    ensures ExifAfter(entries, path, t, dryRun, refusals).Keys == entries.Keys
    ensures forall p :: p in entries && p != path ==> ExifAfter(entries, path, t, dryRun, refusals)[p] == entries[p]
    ensures IsFile(entries, path) ==>
      var st := ExifAfter(entries, path, t, dryRun, refusals)[path];
      st.File? && st.state.mtime == entries[path].state.mtime && st.state.atime == entries[path].state.atime
  {
  }

  /** Reading back what a successful write stored gives the written time. */
  lemma WriteThenRead(ifds: TagMap, t: Time)
    ensures ExifDateTime(Tags(SetDateTags(ifds, Format(t)))) == Some(t)
  {
    ParseFormat(t);
  }

  /** After a successful write the file's metadata reads back as `t`. */
  lemma UpdatedExifReadsBack(entries: Entries, path: Path, t: Time, refusals: Refusals)
    requires ExifWriteSucceeds(entries, path, refusals)
    ensures IsFile(ExifAfter(entries, path, t, false, refusals), path)
    ensures ExifDateTime(ExifAfter(entries, path, t, false, refusals)[path].state.exif) == Some(t)
  {
    var blob := entries[path].state.exif;
    if blob.NoExif? {
      WriteThenRead(map[], t);
    } else {
      WriteThenRead(blob.ifds, t);
    }
  }
}

/**
 * The record mapper over the `files` table
 * (packages/files-core/src/database.ts). Unlike the documents mapper it
 * parses stored metadata without catching, so a row whose metadata text is
 * not JSON makes every read of it fail.
 */
module FileStore {
  import opened Wrappers
  import opened Json
  import opened Metadata
  import DocumentStore

  /** The `storageType` column: `ENUM('local', 's3', 'gcs')`. */
  datatype StorageType = Local | S3 | Gcs

  function TypeTag(t: StorageType): string {
    match t
    case Local => "local"
    case S3 => "s3"
    case Gcs => "gcs"
  }

  /** The enum value a tag names, if any. */
  function StorageTypeOf(tag: string): (r: Option<StorageType>)
    ensures r.Some? ==> TypeTag(r.value) == tag
    ensures r.None? ==> tag != "local" && tag != "s3" && tag != "gcs"
  {
    if tag == "local" then Some(Local)
    else if tag == "s3" then Some(S3)
    else if tag == "gcs" then Some(Gcs)
    else None
  }

  lemma TagRoundTrip(t: StorageType)
    ensures StorageTypeOf(TypeTag(t)) == Some(t)
  {
  }

  /** A row as the table holds it; timestamps are not modelled. */
  datatype FileRow = FileRow(
    id: string,
    filename: Option<string>,
    contentType: Option<string>,
    size: Option<int>,
    storageType: StorageType,
    storagePath: string,
    metadata: Option<string>)

  /** A row as the mapper hands it out. */
  datatype FileRecord = FileRecord(
    id: string,
    filename: Option<string>,
    contentType: Option<string>,
    size: Option<int>,
    storageType: StorageType,
    storagePath: string,
    metadata: Option<Json>)

  /** The arguments of `saveFileRecord`; the metadata is a plain object. */
  datatype NewFile = NewFile(
    id: string,
    filename: Option<string>,
    contentType: Option<string>,
    size: Option<int>,
    storageType: StorageType,
    storagePath: string,
    metadata: Option<seq<Member>>)

  /** The `updates` of `updateFileRecord`; `None` is `undefined`. */
  datatype FileUpdates = FileUpdates(
    filename: Option<string>,
    contentType: Option<string>,
    size: Option<int>,
    metadata: Option<Json>)

  /** The `updateData` object; `metadata: Some(None)` is an explicit `null`. */
  datatype FilePatch = FilePatch(
    filename: Option<string>,
    contentType: Option<string>,
    size: Option<int>,
    metadata: Option<Option<string>>)

  /** A second row with the same key, or `JSON.parse` throwing on stored text. */
  datatype StoreError = DuplicateId(id: string) | InvalidJson(text: string)

  /** `file.metadata ? JSON.parse(file.metadata) : undefined`. */
  function ReadMetadata(text: Option<string>): (r: Result<Option<Json>, StoreError>)
    ensures text.None? || text == Some("") ==> r == Ok(None)
    ensures r.Err? <==> text.Some? && text.value != "" && Parse(text.value).None?
    ensures r.Err? ==> r.error == InvalidJson(text.value)
    ensures r.Ok? && r.value.Some? ==> Parse(text.value) == r.value
    ensures text.Some? && text.value != "" && Parse(text.value).Some? ==> r == Ok(Parse(text.value))
  {
    if text.None? || text.value == "" then Ok(None)
    else
      match Parse(text.value)
      case Some(v) => Ok(Some(v))
      case None => Err(InvalidJson(text.value))
  }

  /**
   * The two mappers agree wherever the files mapper succeeds; where it
   * throws, the documents mapper reports no metadata instead.
   */
  lemma ReadersAgree(text: Option<string>)
    ensures ReadMetadata(text).Ok? ==> ReadMetadata(text).value == DocumentStore.ParseMetadata(text)
    ensures ReadMetadata(text).Err? ==> DocumentStore.ParseMetadata(text).None?
  {
  }

  /** The record for a row, or the error `JSON.parse` raises on its metadata. */
  function ToFileRecord(row: FileRow): (r: Result<FileRecord, StoreError>)
    ensures r.Ok? <==> ReadMetadata(row.metadata).Ok?
    ensures r.Ok? ==> r.value == FileRecord(row.id, row.filename, row.contentType, row.size, row.storageType,
                                            row.storagePath, ReadMetadata(row.metadata).value)
  {
    match ReadMetadata(row.metadata)
    case Ok(m) => Ok(FileRecord(row.id, row.filename, row.contentType, row.size, row.storageType, row.storagePath, m))
    case Err(e) => Err(e)
  }

  /**
   * The row `File.create(args)` inserts: the arguments as given, and the
   * metadata object as its JSON text when one is given.
   */
  function NewRow(args: NewFile): (r: FileRow)
    ensures r.id == args.id && r.filename == args.filename && r.contentType == args.contentType
    ensures r.size == args.size && r.storageType == args.storageType && r.storagePath == args.storagePath
    ensures r.metadata.Some? <==> args.metadata.Some?
  {
    FileRow(args.id, args.filename, args.contentType, args.size, args.storageType, args.storagePath,
            if args.metadata.Some? then MetadataColumn(JObject(args.metadata.value)) else None)
  }

  /** What `saveFileRecord` stores it can always read back: the record carries the given fields and metadata. */
  lemma {:induction false} SavedRecord(args: NewFile)
    ensures ToFileRecord(NewRow(args)).Ok?
    ensures ToFileRecord(NewRow(args)).value
            == FileRecord(args.id, args.filename, args.contentType, args.size, args.storageType, args.storagePath,
                          if args.metadata.Some? then Some(JObject(args.metadata.value)) else None)
  {
    if args.metadata.Some? {
      ColumnParses(JObject(args.metadata.value));
    }
  }

  /**
   * `file.update(updateData)`: every key present in the patch overwrites its
   * column; id, storage type and storage path are not in the patch and never
   * change, and an empty patch changes nothing.
   */
  function Apply(row: FileRow, p: FilePatch): (r: FileRow)
    ensures r.id == row.id && r.storageType == row.storageType && r.storagePath == row.storagePath
    ensures p == FilePatch(None, None, None, None) ==> r == row
  {
    row.(filename := if p.filename.Some? then p.filename else row.filename,
         contentType := if p.contentType.Some? then p.contentType else row.contentType,
         size := if p.size.Some? then p.size else row.size,
         metadata := if p.metadata.Some? then p.metadata.value else row.metadata)
  }

  /** The row after `updateFileRecord`: a field given a value takes it; id, storage type and storage path never change. */
  function Updated(row: FileRow, u: FileUpdates): (r: FileRow)
    ensures r.id == row.id && r.storageType == row.storageType && r.storagePath == row.storagePath
  {
    FileRow(
      row.id,
      if u.filename.Some? then u.filename else row.filename,
      if u.contentType.Some? then u.contentType else row.contentType,
      if u.size.Some? then u.size else row.size,
      row.storageType,
      row.storagePath,
      if u.metadata.Some? then MetadataColumn(u.metadata.value) else row.metadata)
  }

  /** Applying the same patch a second time changes nothing more. */
  lemma ApplyIdempotent(row: FileRow, p: FilePatch)
    ensures Apply(Apply(row, p), p) == Apply(row, p)
  {
  }

  lemma EmptyUpdate(row: FileRow)
    ensures Updated(row, FileUpdates(None, None, None, None)) == row
  {
  }

  /**
   * Metadata is replaced, never merged: once an update provides it, reading
   * the row succeeds and gives exactly the new value (nothing when it is
   * falsy), whatever text the row held before, unreadable text included.
   */
  lemma {:induction false} UpdatedMetadata(row: FileRow, u: FileUpdates)
    ensures u.metadata.Some? ==>
              ReadMetadata(Updated(row, u).metadata) == Ok(if Truthy(u.metadata.value) then u.metadata else None)
    ensures u.metadata.None? ==> Updated(row, u).metadata == row.metadata
  {
    if u.metadata.Some? && Truthy(u.metadata.value) {
      ColumnParses(u.metadata.value);
    }
  }

  /** The `files` table. */
  class FileTable {
    var rows: map<string, FileRow>

    /** Every row is filed under its own id. */
    ghost predicate Valid()
      reads this
    {
      forall id :: id in rows ==> rows[id].id == id
    }

    constructor()
      ensures Valid() && rows == map[]
    {
      rows := map[];
    }

    /** `saveFileRecord`: insert the row and return it mapped; the read-back never fails. */
    method Save(args: NewFile) returns (r: Result<FileRecord, StoreError>)
      requires Valid()
      modifies this
      ensures Valid()
      ensures args.id in old(rows) ==> r == Err(DuplicateId(args.id)) && rows == old(rows)
      ensures args.id !in old(rows) ==> rows == old(rows)[args.id := NewRow(args)] && r == ToFileRecord(NewRow(args)) && r.Ok?
    {
      if args.id in rows {
        return Err(DuplicateId(args.id));
      }
      var file := NewRow(args);
      rows := rows[args.id := file];
      SavedRecord(args);
      r := ToFileRecord(file);
    }

    /** `getFileRecord`: `Ok(None)` for an unknown id; a row with unreadable metadata raises. */
    method Get(id: string) returns (r: Result<Option<FileRecord>, StoreError>)
      ensures id !in rows ==> r == Ok(None)
      ensures id in rows ==> (r.Ok? <==> ToFileRecord(rows[id]).Ok?)
      ensures id in rows && r.Ok? ==> r.value == Some(ToFileRecord(rows[id]).value)
      ensures id in rows && r.Err? ==> r.error == ToFileRecord(rows[id]).error
    {
      if id !in rows {
        return Ok(None);
      }
      var record := ToFileRecord(rows[id]);
      if record.Err? {
        return Err(record.error);
      }
      r := Ok(Some(record.value));
    }

    /**
     * `updateFileRecord`: an unknown id gives `Ok(None)` and changes nothing;
     * otherwise the patch is built one field at a time and applied, and the
     * row is read back, which raises after the write when the row's
     * metadata is unreadable.
     */
    method Update(id: string, u: FileUpdates) returns (r: Result<Option<FileRecord>, StoreError>)
      requires Valid()
      modifies this
      ensures Valid()
      ensures id !in old(rows) ==> r == Ok(None) && rows == old(rows)
      ensures id in old(rows) ==> rows == old(rows)[id := Updated(old(rows)[id], u)]
      ensures id in old(rows) ==> (r.Ok? <==> ToFileRecord(Updated(old(rows)[id], u)).Ok?)
      ensures id in old(rows) && r.Ok? ==> r.value == Some(ToFileRecord(Updated(old(rows)[id], u)).value)
    {
      if id !in rows {
        return Ok(None);
      }
      var file := rows[id];
      var updateData := FilePatch(None, None, None, None);
      if u.filename.Some? {
        updateData := updateData.(filename := u.filename);
      }
      if u.contentType.Some? {
        updateData := updateData.(contentType := u.contentType);
      }
      if u.size.Some? {
        updateData := updateData.(size := u.size);
      }
      if u.metadata.Some? {
        updateData := updateData.(metadata := Some(MetadataColumn(u.metadata.value)));
      }
      var updated := Apply(file, updateData);
      assert updated == Updated(file, u);
      rows := rows[id := updated];
      r := Get(id);
    }

    /** `deleteFileRecord`: `false` for an unknown id, else the row is removed and `true` returned. */
    method Delete(id: string) returns (r: bool)
      requires Valid()
      modifies this
      ensures Valid()
      ensures r == (id in old(rows))
      ensures rows == old(rows) - {id}
    {
      if id !in rows {
        return false;
      }
      rows := rows - {id};
      r := true;
    }

    /** `listFileRecords`: one mapped record per row, or the error of a row whose metadata is unreadable. */
    method List() returns (r: Result<seq<FileRecord>, StoreError>)
      requires Valid()
      ensures r.Err? <==> exists id :: id in rows && ToFileRecord(rows[id]).Err?
      ensures r.Err? ==> exists id :: id in rows && ToFileRecord(rows[id]) == Err(r.error)
      ensures r.Ok? ==> |r.value| == |rows|
      ensures r.Ok? ==> forall i :: 0 <= i < |r.value| ==> r.value[i].id in rows && ToFileRecord(rows[r.value[i].id]) == Ok(r.value[i])
      ensures r.Ok? ==> forall i, j :: 0 <= i < j < |r.value| ==> r.value[i].id != r.value[j].id
      ensures r.Ok? ==> forall id :: id in rows ==> exists i :: 0 <= i < |r.value| && r.value[i].id == id
    {
      var left := rows.Keys;
      ghost var ids: seq<string> := [];
      var records: seq<FileRecord> := [];
      while left != {}
        invariant left <= rows.Keys
        invariant |records| == |ids|
        invariant forall i :: 0 <= i < |ids| ==> ids[i] in rows && ids[i] !in left && ToFileRecord(rows[ids[i]]) == Ok(records[i])
        invariant forall i, j :: 0 <= i < j < |ids| ==> ids[i] != ids[j]
        invariant forall id :: id in rows && id !in left ==> id in ids
        invariant |ids| + |left| == |rows.Keys|
        decreases |left|
      {
        var id :| id in left;
        var record := ToFileRecord(rows[id]);
        if record.Err? {
          return Err(record.error);
        }
        records := records + [record.value];
        ids := ids + [id];
        left := left - {id};
      }
      assert forall i :: 0 <= i < |records| ==> records[i].id == ids[i];
      r := Ok(records);
    }
  }
}

/**
 * File orchestration (packages/files-core/src/files.ts): a storage backend
 * is chosen by the configuration's `type` tag, and each operation runs a
 * fixed sequence of effects on the blob store and the `files` table.
 *
 * The backends' own I/O (disk, S3, GCS) is one flag per call, `ioOk`: the
 * call either completes or throws. Everything else a backend does that the
 * source shows (the sub-config check, where an object lives) is modelled.
 */
module Files {
  import opened Wrappers
  import opened Json
  import opened FileStore

  newtype byte = x: int | 0 <= x < 256

  datatype LocalConfig = LocalConfig(path: string)
  datatype S3Config = S3Config(bucket: string, region: string, accessKeyId: string, secretAccessKey: string)
  datatype GcsConfig = GcsConfig(bucket: string, keyFilename: Option<string>, projectId: Option<string>)

  /** `StorageConfig`; the tag is a string so that an unsupported one can be represented. */
  datatype StorageConfig = StorageConfig(
    typeTag: string,
    local: Option<LocalConfig>,
    s3: Option<S3Config>,
    gcs: Option<GcsConfig>)

  datatype UploadOptions = UploadOptions(contentType: Option<string>, metadata: Option<seq<Member>>)

  /** `string | Buffer`. */
  datatype Content = Text(text: string) | Buffer(bytes: seq<byte>)

  datatype FileData = FileData(id: string, content: Content)

  datatype FilesError =
    | UnsupportedStorageType(tag: string)
    | ConfigNotProvided(backend: StorageType)
    | BackendFailed
    | ObjectNotFound
    | ReadFailed(path: string)
    | Record(error: StoreError)
    | NotAFunction(name: string)

  /** The error text the repository itself writes; the others come from the file system, the SDKs or the database. */
  function Message(e: FilesError): Option<string> {
    match e
    case UnsupportedStorageType(tag) => Some("Unsupported storage type: " + tag)
    case ConfigNotProvided(Local) => Some("Local config not provided")
    case ConfigNotProvided(S3) => Some("S3 config not provided")
    case ConfigNotProvided(Gcs) => Some("GCS config not provided")
    case NotAFunction(name) => Some("storage." + name + " is not a function")
    case _ => None
  }

  /** `getStorage`: the backend named by the tag; any other tag is refused. */
  function GetStorage(config: StorageConfig): (r: Result<StorageType, FilesError>)
    ensures r.Ok? <==> config.typeTag in {"local", "s3", "gcs"}
    ensures r.Ok? ==> TypeTag(r.value) == config.typeTag
    ensures r.Err? ==> r.error == UnsupportedStorageType(config.typeTag)
  {
    match StorageTypeOf(config.typeTag)
    case Some(t) => Ok(t)
    case None => Err(UnsupportedStorageType(config.typeTag))
  }

  // ----- Content and its byte length -----

  /** The UTF-8 encoding of one character, as `Buffer.byteLength` counts it. */
  function EncodeChar(c: char): seq<byte> {
    var n := c as int;
    if n < 0x80 then [n as byte]
    else if n < 0x800 then [(0xC0 + n / 0x40) as byte, (0x80 + n % 0x40) as byte]
    else if n < 0x10000 then
      [(0xE0 + n / 0x1000) as byte, (0x80 + n / 0x40 % 0x40) as byte, (0x80 + n % 0x40) as byte]
    else
      [(0xF0 + n / 0x40000) as byte, (0x80 + n / 0x1000 % 0x40) as byte,
       (0x80 + n / 0x40 % 0x40) as byte, (0x80 + n % 0x40) as byte]
  }

  function Utf8(s: string): seq<byte> {
    if s == [] then [] else EncodeChar(s[0]) + Utf8(s[1..])
  }

  predicate IsAscii(s: string) {
    forall i :: 0 <= i < |s| ==> s[i] as int < 0x80
  }

  /** A string takes between one and four bytes per character, and exactly one per character when it is ASCII. */
  lemma {:induction false} Utf8Length(s: string)
    ensures |s| <= |Utf8(s)| <= 4 * |s|
    ensures |Utf8(s)| == |s| <==> IsAscii(s)
  {
    if s != [] {
      Utf8Length(s[1..]);
      assert IsAscii(s) <==> s[0] as int < 0x80 && IsAscii(s[1..]) by {
        if s[0] as int < 0x80 && IsAscii(s[1..]) {
          forall i | 0 <= i < |s| ensures s[i] as int < 0x80 {
            if i > 0 { assert s[i] == s[1..][i - 1]; }
          }
        }
        if IsAscii(s) {
          forall i | 0 <= i < |s| - 1 ensures s[1..][i] as int < 0x80 {
            assert s[1..][i] == s[i + 1];
          }
        }
      }
    }
  }

  /** What is written to the backend: a buffer as is, a string as UTF-8. */
  function ContentBytes(content: Content): seq<byte> {
    match content
    case Buffer(bytes) => bytes
    case Text(s) => Utf8(s)
  }

  /** `Buffer.isBuffer(content) ? content.length : Buffer.byteLength(content)`. */
  function ByteLength(content: Content): (n: nat)
    ensures n == |ContentBytes(content)|
  {
    match content
    case Buffer(bytes) => |bytes|
    case Text(s) => |Utf8(s)|
  }

  // ----- The blob store -----

  /** Where a backend keeps an object: its directory or bucket, and the file id as the name. */
  datatype BlobKey = BlobKey(backend: StorageType, location: string, id: string)

  /** The backend's own sub-config check: each backend throws when its section is missing. */
  function Location(t: StorageType, config: StorageConfig): (r: Result<string, FilesError>)
    ensures r.Err? <==> match t
                        case Local => config.local.None?
                        case S3 => config.s3.None?
                        case Gcs => config.gcs.None?
    ensures r.Err? ==> r.error == ConfigNotProvided(t)
  {
    match t
    case Local => if config.local.Some? then Ok(config.local.value.path) else Err(ConfigNotProvided(Local))
    case S3 => if config.s3.Some? then Ok(config.s3.value.bucket) else Err(ConfigNotProvided(S3))
    case Gcs => if config.gcs.Some? then Ok(config.gcs.value.bucket) else Err(ConfigNotProvided(Gcs))
  }

  type Objects = map<BlobKey, seq<byte>>

  /** `storage.save`: the objects afterwards, or the error. */
  function Put(objects: Objects, t: StorageType, config: StorageConfig, id: string, bytes: seq<byte>, ioOk: bool)
    : (r: Result<Objects, FilesError>)
    ensures r.Ok? ==> Location(t, config).Ok? && r.value == objects[BlobKey(t, Location(t, config).value, id) := bytes]
    ensures r.Ok? <==> Location(t, config).Ok? && ioOk
  {
    match Location(t, config)
    case Err(e) => Err(e)
    case Ok(loc) => if ioOk then Ok(objects[BlobKey(t, loc, id) := bytes]) else Err(BackendFailed)
  }

  /** `storage.retrieve`: the stored bytes, or the error; a missing object is an error. */
  function Fetch(objects: Objects, t: StorageType, config: StorageConfig, id: string, ioOk: bool)
    : (r: Result<seq<byte>, FilesError>)
    ensures r.Ok? <==> Location(t, config).Ok? && ioOk && BlobKey(t, Location(t, config).value, id) in objects
    ensures r.Ok? ==> r.value == objects[BlobKey(t, Location(t, config).value, id)]
  {
    match Location(t, config)
    case Err(e) => Err(e)
    case Ok(loc) =>
      if !ioOk then Err(BackendFailed)
      else if BlobKey(t, loc, id) !in objects then Err(ObjectNotFound)
      else Ok(objects[BlobKey(t, loc, id)])
  }

  /** The backend's delete: the objects afterwards, or the error. Whether a missing object is an error is up to the backend, so it is part of `ioOk`. */
  function Remove(objects: Objects, t: StorageType, config: StorageConfig, id: string, ioOk: bool)
    : (r: Result<Objects, FilesError>)
    ensures r.Ok? <==> Location(t, config).Ok? && ioOk
    ensures r.Ok? ==> r.value == objects - {BlobKey(t, Location(t, config).value, id)}
  {
    match Location(t, config)
    case Err(e) => Err(e)
    case Ok(loc) => if ioOk then Ok(objects - {BlobKey(t, loc, id)}) else Err(BackendFailed)
  }

  /** Objects held by the three storage backends together. */
  class BlobStore {
    var objects: Objects

    constructor()
      ensures objects == map[]
    {
      objects := map[];
    }

    method Save(t: StorageType, config: StorageConfig, id: string, content: Content, ioOk: bool)
      returns (r: Result<(), FilesError>)
      modifies this
      ensures r.Ok? <==> Put(old(objects), t, config, id, ContentBytes(content), ioOk).Ok?
      ensures r.Ok? ==> objects == Put(old(objects), t, config, id, ContentBytes(content), ioOk).value
      ensures r.Err? ==> objects == old(objects) && r.error == Put(old(objects), t, config, id, ContentBytes(content), ioOk).error
    {
      var put := Put(objects, t, config, id, ContentBytes(content), ioOk);
      if put.Err? {
        return Err(put.error);
      }
      objects := put.value;
      r := Ok(());
    }

    method Retrieve(t: StorageType, config: StorageConfig, id: string, ioOk: bool)
      returns (r: Result<seq<byte>, FilesError>)
      ensures r == Fetch(objects, t, config, id, ioOk)
    {
      r := Fetch(objects, t, config, id, ioOk);
    }

    method Delete(t: StorageType, config: StorageConfig, id: string, ioOk: bool)
      returns (r: Result<(), FilesError>)
      modifies this
      ensures r.Ok? <==> Remove(old(objects), t, config, id, ioOk).Ok?
      ensures r.Ok? ==> objects == Remove(old(objects), t, config, id, ioOk).value
      ensures r.Err? ==> objects == old(objects) && r.error == Remove(old(objects), t, config, id, ioOk).error
    {
      var removed := Remove(objects, t, config, id, ioOk);
      if removed.Err? {
        return Err(removed.error);
      }
      objects := removed.value;
      r := Ok(());
    }
  }

  // ----- The operations, as functions of the blob store and the table -----

  datatype World = World(objects: Objects, rows: map<string, FileRow>)

  /** The record `saveFile` asks for: no filename, the byte length as size, the id as storage path. */
  function SaveArgs(t: StorageType, content: Content, options: UploadOptions, id: string): NewFile {
    NewFile(id, None, options.contentType, Some(ByteLength(content)), t, id, options.metadata)
  }

  /** `saveFile` with `id` as the fresh uuid: dispatch, write the blob, then insert the record. */
  function SaveFileSpec(w: World, config: StorageConfig, content: Content, options: UploadOptions, id: string, ioOk: bool)
    : (res: (Result<FileData, FilesError>, World))
    ensures res.0.Ok? ==> res.0.value == FileData(id, content) && id !in w.rows && id in res.1.rows
    ensures res.1.rows.Keys <= w.rows.Keys + {id}
    ensures forall k :: k in w.rows ==> k in res.1.rows && res.1.rows[k] == w.rows[k]
  {
    match GetStorage(config)
    case Err(e) => (Err(e), w)
    case Ok(t) =>
      match Put(w.objects, t, config, id, ContentBytes(content), ioOk)
      case Err(e) => (Err(e), w)
      case Ok(objects) =>
        if id in w.rows then (Err(Record(DuplicateId(id))), World(objects, w.rows))
        else (Ok(FileData(id, content)), World(objects, w.rows[id := NewRow(SaveArgs(t, content, options, id))]))
  }

  /** The blob is written before the record: when the blob write fails no record is inserted, and nothing changes. */
  lemma SaveFileBlobFirst(w: World, config: StorageConfig, content: Content, options: UploadOptions, id: string, ioOk: bool)
    ensures var t := GetStorage(config);
            t.Err? || Put(w.objects, t.value, config, id, ContentBytes(content), ioOk).Err?
            ==> SaveFileSpec(w, config, content, options, id, ioOk).0.Err?
                && SaveFileSpec(w, config, content, options, id, ioOk).1 == w
  {
  }

  /** There is no rollback: a record insert that fails leaves the blob written. */
  lemma SaveFileNoRollback(w: World, config: StorageConfig, content: Content, options: UploadOptions, id: string)
    requires GetStorage(config).Ok? && Location(GetStorage(config).value, config).Ok?
    requires id in w.rows
    ensures var (r, w') := SaveFileSpec(w, config, content, options, id, true);
            r == Err(Record(DuplicateId(id))) && w'.rows == w.rows
            && w'.objects[BlobKey(GetStorage(config).value, Location(GetStorage(config).value, config).value, id)] == ContentBytes(content)
  {
  }

  /**
   * A successful `saveFile` returns the id and content it was given, and
   * the record it creates has the id as storage path, the configured type
   * and the content's byte length as size, and reads back without error.
   */
  lemma {:induction false} SaveFileRecord(w: World, config: StorageConfig, content: Content, options: UploadOptions, id: string, ioOk: bool)
    requires SaveFileSpec(w, config, content, options, id, ioOk).0.Ok?
    ensures var (r, w') := SaveFileSpec(w, config, content, options, id, ioOk);
            r.value == FileData(id, content)
            && id in w'.rows
            && ToFileRecord(w'.rows[id]).Ok?
            && var record := ToFileRecord(w'.rows[id]).value;
               record.id == id && record.storagePath == id
               && TypeTag(record.storageType) == config.typeTag
               && record.size == Some(|ContentBytes(content)|)
               && record.contentType == options.contentType
               && record.metadata == if options.metadata.Some? then Some(JObject(options.metadata.value)) else None
  {
    var t := GetStorage(config).value;
    SavedRecord(SaveArgs(t, content, options, id));
  }

  /** `retrieveFileById`: the content as a buffer, or `None` for any failure, an unsupported type included. */
  function RetrieveSpec(objects: Objects, config: StorageConfig, id: string, ioOk: bool): (r: Option<FileData>)
    ensures r.Some? <==> GetStorage(config).Ok? && Fetch(objects, GetStorage(config).value, config, id, ioOk).Ok?
    ensures r.Some? ==> r.value == FileData(id, Buffer(Fetch(objects, GetStorage(config).value, config, id, ioOk).value))
    ensures r.Some? ==> r.value.id == id && r.value.content.Buffer?
    ensures GetStorage(config).Err? ==> r.None?
    ensures !ioOk ==> r.None?
  {
    match GetStorage(config)
    case Err(_) => None
    case Ok(t) =>
      match Fetch(objects, t, config, id, ioOk)
      case Ok(bytes) => Some(FileData(id, Buffer(bytes)))
      case Err(_) => None
  }

  /** What `saveFile` wrote, `retrieveFileById` gives back, as the same bytes. */
  lemma SaveThenRetrieve(w: World, config: StorageConfig, content: Content, options: UploadOptions, id: string, ioOk: bool)
    requires SaveFileSpec(w, config, content, options, id, ioOk).0.Ok?
    ensures RetrieveSpec(SaveFileSpec(w, config, content, options, id, ioOk).1.objects, config, id, true)
            == Some(FileData(id, Buffer(ContentBytes(content))))
  {
  }

  /** `deleteFile`: dispatch, delete the blob, then delete the record and return whether it existed. */
  function DeleteFileSpec(w: World, config: StorageConfig, id: string, ioOk: bool): (res: (Result<bool, FilesError>, World))
    ensures res.1.rows.Keys <= w.rows.Keys
    ensures forall k :: k in w.rows && k != id ==> k in res.1.rows && res.1.rows[k] == w.rows[k]
    ensures forall key :: key in res.1.objects ==> key in w.objects && res.1.objects[key] == w.objects[key]
  {
    match GetStorage(config)
    case Err(e) => (Err(e), w)
    case Ok(t) =>
      match Remove(w.objects, t, config, id, ioOk)
      case Err(e) => (Err(e), w)
      case Ok(objects) => (Ok(id in w.rows), World(objects, w.rows - {id}))
  }

  /** When the dispatch or the blob delete throws, the error propagates and the record stays. */
  lemma DeleteFileBlobFirst(w: World, config: StorageConfig, id: string, ioOk: bool)
    ensures DeleteFileSpec(w, config, id, ioOk).0.Err? ==> DeleteFileSpec(w, config, id, ioOk).1 == w
    ensures DeleteFileSpec(w, config, id, ioOk).0.Err? <==>
              GetStorage(config).Err? || Remove(w.objects, GetStorage(config).value, config, id, ioOk).Err?
  {
  }

  /** After a successful `deleteFile` the record is gone, the result says whether it was there, and the content can no longer be retrieved. */
  lemma DeleteThenRetrieve(w: World, config: StorageConfig, id: string, ioOk: bool)
    requires DeleteFileSpec(w, config, id, ioOk).0.Ok?
    ensures var (r, w') := DeleteFileSpec(w, config, id, ioOk);
            r.value == (id in w.rows) && id !in w'.rows
            && forall ok :: RetrieveSpec(w'.objects, config, id, ok).None?
  {
  }

  /** Only the GCS backend exports a function named `deleteFile`; the local and S3 backends name theirs `delete`. */
  predicate ExportsDeleteFile(t: StorageType) {
    t == Gcs
  }

  /** `deleteFile` as written: for a backend without a `deleteFile` export the call throws before anything is deleted. */
  function DeleteFileAsWritten(w: World, config: StorageConfig, id: string, ioOk: bool): (res: (Result<bool, FilesError>, World))
    ensures GetStorage(config).Ok? && !ExportsDeleteFile(GetStorage(config).value) ==> res == (Err(NotAFunction("deleteFile")), w)
    ensures GetStorage(config) == Ok(Gcs) ==> res == DeleteFileSpec(w, config, id, ioOk)
  {
    match GetStorage(config)
    case Err(e) => (Err(e), w)
    case Ok(t) =>
      if !ExportsDeleteFile(t) then (Err(NotAFunction("deleteFile")), w)
      else DeleteFileSpec(w, config, id, ioOk)
  }

  /** As written, `deleteFile` never deletes anything on the local or S3 backend. */
  lemma DeleteFileAsWrittenLocalS3(w: World, config: StorageConfig, id: string, ioOk: bool)
    requires config.typeTag == "local" || config.typeTag == "s3"
    ensures DeleteFileAsWritten(w, config, id, ioOk) == (Err(NotAFunction("deleteFile")), w)
  {
  }

  /** One stored local file: the intended `deleteFile` removes its blob and record, the one as written removes neither. */
  lemma DeleteFileDiscrepancy()
    ensures var config := StorageConfig("local", Some(LocalConfig("/data")), None, None);
            var w := World(map[BlobKey(Local, "/data", "f1") := [1, 2, 3]],
                           map["f1" := FileRow("f1", None, None, Some(3), Local, "f1", None)]);
            DeleteFileAsWritten(w, config, "f1", true).0.Err?
            && DeleteFileAsWritten(w, config, "f1", true).1 == w
            && DeleteFileSpec(w, config, "f1", true) == (Ok(true), World(map[], map[]))
  {
    var config := StorageConfig("local", Some(LocalConfig("/data")), None, None);
    var w := World(map[BlobKey(Local, "/data", "f1") := [1, 2, 3]],
                   map["f1" := FileRow("f1", None, None, Some(3), Local, "f1", None)]);
    assert w.objects - {BlobKey(Local, "/data", "f1")} == map[];
    assert w.rows - {"f1"} == map[];
  }

  // ----- uploadFile: the filename derivation -----

  /** `filePath.split('/').pop()`: the text after the last '/', or the whole path when it has none. */
  function LastSegment(path: string): (r: string)
    ensures |r| <= |path| && r == path[|path| - |r|..]
    ensures forall i :: 0 <= i < |r| ==> r[i] != '/'
    ensures |r| < |path| ==> path[|path| - |r| - 1] == '/'
    decreases |path|
  {
    if path == [] || path[|path| - 1] == '/' then []
    else LastSegment(path[..|path| - 1]) + [path[|path| - 1]]
  }

  /** The name after the last separator is the segment. */
  lemma LastSegmentOfJoin(dir: string, name: string)
    requires forall i :: 0 <= i < |name| ==> name[i] != '/'
    ensures LastSegment(dir + "/" + name) == name
  {
    var path := dir + "/" + name;
    assert path[|dir|] == '/';
    assert path[|dir| + 1..] == name;
  }

  /** `(options?.metadata?.filename as string) || filePath.split('/').pop()`. */
  function UploadFilename(metadata: Option<seq<Member>>, filePath: string): (r: Json)
    ensures metadata.Some? && Lookup(metadata.value, "filename").Some? && Truthy(Lookup(metadata.value, "filename").value)
            ==> r == Lookup(metadata.value, "filename").value
    ensures !(metadata.Some? && Lookup(metadata.value, "filename").Some? && Truthy(Lookup(metadata.value, "filename").value))
            ==> r == JString(LastSegment(filePath))
  {
    var given := if metadata.Some? then Lookup(metadata.value, "filename") else None;
    if given.Some? && Truthy(given.value) then given.value else JString(LastSegment(filePath))
  }

  /** `{ ...options, metadata: { ...options?.metadata, filename } }`. */
  function UploadOptionsFor(options: UploadOptions, filePath: string): (r: UploadOptions)
    ensures r.contentType == options.contentType && r.metadata.Some?
    ensures Lookup(r.metadata.value, "filename") == Some(UploadFilename(options.metadata, filePath))
    ensures options.metadata.Some? ==> |options.metadata.value| <= |r.metadata.value|
  {
    var given := if options.metadata.Some? then options.metadata.value else [];
    var filename := UploadFilename(options.metadata, filePath);
    LookupAssign(given, "filename", filename, "filename");
    UploadOptions(options.contentType, Some(Assign(given, "filename", filename)))
  }

  /** The uploaded metadata holds the derived filename, and every other key as it was given. */
  lemma UploadMetadata(options: UploadOptions, filePath: string, k: string)
    ensures UploadOptionsFor(options, filePath).contentType == options.contentType
    ensures Lookup(UploadOptionsFor(options, filePath).metadata.value, k)
            == if k == "filename" then Some(UploadFilename(options.metadata, filePath))
               else if options.metadata.Some? then Lookup(options.metadata.value, k) else None
  {
    var given := if options.metadata.Some? then options.metadata.value else [];
    LookupAssign(given, "filename", UploadFilename(options.metadata, filePath), k);
  }

  // ----- The operations over the two stores -----

  /** `saveFile`, with `id` standing for the fresh uuid. */
  method SaveFile(blobs: BlobStore, files: FileTable, config: StorageConfig, content: Content,
                  options: UploadOptions, id: string, ioOk: bool)
    returns (r: Result<FileData, FilesError>)
    requires files.Valid()
    modifies blobs, files
    ensures files.Valid()
    ensures (r, World(blobs.objects, files.rows))
            == SaveFileSpec(World(old(blobs.objects), old(files.rows)), config, content, options, id, ioOk)
  {
    var storage := GetStorage(config);
    if storage.Err? {
      return Err(storage.error);
    }
    var saved := blobs.Save(storage.value, config, id, content, ioOk);
    if saved.Err? {
      return Err(saved.error);
    }
    var record := files.Save(SaveArgs(storage.value, content, options, id));
    if record.Err? {
      return Err(Record(record.error));
    }
    r := Ok(FileData(id, content));
  }

  /** `uploadFile`: `read` is what `fs.readFile(filePath)` gives, or `None` when it throws. */
  method UploadFile(blobs: BlobStore, files: FileTable, config: StorageConfig, filePath: string,
                    read: Option<seq<byte>>, options: UploadOptions, id: string, ioOk: bool)
    returns (r: Result<FileData, FilesError>)
    requires files.Valid()
    modifies blobs, files
    ensures files.Valid()
    ensures read.None? ==> r == Err(ReadFailed(filePath))
                           && blobs.objects == old(blobs.objects) && files.rows == old(files.rows)
    ensures read.Some? ==>
              (r, World(blobs.objects, files.rows))
              == SaveFileSpec(World(old(blobs.objects), old(files.rows)), config, Buffer(read.value),
                              UploadOptionsFor(options, filePath), id, ioOk)
  {
    if read.None? {
      return Err(ReadFailed(filePath));
    }
    r := SaveFile(blobs, files, config, Buffer(read.value), UploadOptionsFor(options, filePath), id, ioOk);
  }

  /** `retrieveFileById`. */
  method RetrieveFileById(blobs: BlobStore, config: StorageConfig, id: string, ioOk: bool)
    returns (r: Option<FileData>)
    ensures r == RetrieveSpec(blobs.objects, config, id, ioOk)
  {
    var storage := GetStorage(config);
    if storage.Err? {
      return None;
    }
    var content := blobs.Retrieve(storage.value, config, id, ioOk);
    if content.Err? {
      return None;
    }
    r := Some(FileData(id, Buffer(content.value)));
  }

  /** `deleteFile`. */
  method DeleteFile(blobs: BlobStore, files: FileTable, config: StorageConfig, id: string, ioOk: bool)
    returns (r: Result<bool, FilesError>)
    requires files.Valid()
    modifies blobs, files
    ensures files.Valid()
    ensures (r, World(blobs.objects, files.rows))
            == DeleteFileSpec(World(old(blobs.objects), old(files.rows)), config, id, ioOk)
  {
    var storage := GetStorage(config);
    if storage.Err? {
      return Err(storage.error);
    }
    var removed := blobs.Delete(storage.value, config, id, ioOk);
    if removed.Err? {
      return Err(removed.error);
    }
    var existed := files.Delete(id);
    r := Ok(existed);
  }
}

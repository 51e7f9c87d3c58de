# soat persistence and validation layer, in Dafny

This project models the layer of soat that sits under its document and file
services:

- the record mappers over the `documents` and `files` tables
  (`saveDocumentRecord`, `getDocumentRecord`, `updateDocumentRecord`,
  `deleteDocumentRecord`, `listDocumentRecords`, `getDocumentRecordByFileId`,
  and the five file-record counterparts);
- file orchestration over a storage backend chosen by tag (`getStorage`,
  `saveFile`, `uploadFile`, `retrieveFileById`, `deleteFile`);
- embedding provider selection (`getProvider`, `getProviderConfig`, the
  checks in `generateEmbedding`/`generateEmbeddings`, `getConfigFromEnv`);
- the pgvector column type `VectorType` and the shape check on the language
  model's reply in `atomizeText`.

Each table is a class holding a map from id to row. The methods that change
it are proved against pure functions of the old rows (`Updated`, `NewRow`).
The lemmas state what the source promises about those functions: partial
updates, metadata replaced and never merged, metadata that reads back as
written, missing ids answered with `None`/`false`.

The blob store is a second class holding a map from object key to bytes.
`saveFile` and `deleteFile` are proved equal to functions of the blob map
and the record map together (`SaveFileSpec`, `DeleteFileSpec`). Lemmas about
those functions give the order of effects and what a partial failure leaves
behind.

Metadata lives in TEXT columns as JSON text, so the model includes a JSON
value type with `JSON.stringify` and a recursive-descent `JSON.parse`. It
proves `Parse(Stringify(v)) == Some(v)` for every value, and the metadata and
vector round trips rest on that lemma.

Files, one module each: `wrappers.dfy` (Option, Result), `json.dfy`,
`pg_vector.dfy`, `metadata.dfy` (the metadata column rule both mappers
share), `document_store.dfy`, `file_store.dfy`, `files.dfy`,
`embeddings.dfy`, `atomizer.dfy`.

External effects become inputs:

- the fresh uuid of `saveFile` is the `id` parameter;
- each backend I/O call (disk, S3, GCS) is one `ioOk` flag, so the call
  either completes or throws;
- the bytes `fs.readFile` returns, or its failure, are the `read` parameter;
- the environment is a map from variable name to string;
- the language model's reply is the `content` string.

## Model

| member | source | states |
|---|---|---|
| Json.Lookup | packages/files-core/src/files.ts:58 | a property read yields nothing exactly when no member has the key, and otherwise the value of the last member with that key |
| Json.Assign | packages/files-core/src/files.ts:62 | the spread keeps every existing key in its place, adds the key at the end only when it is new, and the result has the key |
| Json.LookupAssign | packages/files-core/src/files.ts:62 | after `{ ...m, [key]: v }`, reading `key` gives `v` and every other key reads as it did before |
| Json.Stringify | packages/documents-core/src/database.ts:43 | the JSON text of a value is never empty and starts with a character that begins a JSON value |
| Json.ParseStringify | packages/postgresdb/src/types.ts:43-53 | `JSON.parse(JSON.stringify(v))` gives back `v` for every value |
| Json.ParseSurroundingWhitespace | packages/documents-core/src/database.ts:10 | `JSON.parse` accepts the JSON text of a value with any whitespace before and after it, and gives back that value |
| Json.StringifyInjective | packages/documents-core/src/database.ts:86-90 | two values with the same JSON text are equal |
| PgVector.VECTOR | packages/postgresdb/src/types.ts:56-58 | `VECTOR(d)` is a vector type of dimension `d` |
| PgVector.VectorType.ToSql | packages/postgresdb/src/types.ts:8-10 | the SQL type name `toSql` writes has the form `VECTOR(n)`, and the number read back out of it is the dimension |
| PgVector.VectorType.Sanitize | packages/postgresdb/src/types.ts:12-27 | an array comes back unchanged; a string that parses to an array comes back as that array; anything else comes back unchanged |
| PgVector.SanitizeIdempotent | packages/postgresdb/src/types.ts:12-27 | sanitising a sanitised value changes nothing |
| PgVector.SanitizeBoundValue | packages/postgresdb/src/types.ts:12-53 | sanitising the text `toBindableValue` writes gives back the number array |
| PgVector.VectorType.Validate | packages/postgresdb/src/types.ts:29-41 | it succeeds exactly for an array of `dimension` numbers; it reports "not an array" exactly for non-arrays, and "wrong dimension" exactly for arrays of another length |
| PgVector.ValidateOrder | packages/postgresdb/src/types.ts:30-40 | the reported error is the first failing check in the order array, length, element type |
| PgVector.ValidateNumbers | packages/postgresdb/src/types.ts:29-41 | a number array is valid exactly when its length is the dimension |
| PgVector.VectorType.ParseDatabaseValue | packages/postgresdb/src/types.ts:43-49 | a string is parsed as JSON, which may fail; any other value is returned as it is |
| PgVector.ParseBoundValue | packages/postgresdb/src/types.ts:43-53 | `parseDatabaseValue(toBindableValue(xs))` gives back the number array `xs` |
| PgVector.VectorType.ToBindableValue | packages/postgresdb/src/types.ts:51-53 | the text bound for a vector is JSON that parses back to that number array |
| Metadata.MetadataColumn | packages/documents-core/src/database.ts:86-90 | a metadata value is written as text exactly when it is truthy, and as NULL otherwise |
| Metadata.ColumnParses | packages/files-core/src/database.ts:65-69 | the text written for a truthy value is non-empty and parses back to that value |
| DocumentStore.EmbeddingFitsLength | packages/postgresdb/src/models/Document.ts:24 | the `VECTOR(1536)` column accepts an absent embedding or one of exactly 1536 numbers |
| DocumentStore.ParseMetadata | packages/documents-core/src/database.ts:5-14 | absent or empty text gives no metadata; otherwise the result is what parsing the text gives, and no metadata when it does not parse; it never fails |
| DocumentStore.ToDocumentRecord | packages/documents-core/src/database.ts:16-30 | every column is copied unchanged, and the metadata is what `parseMetadata` reads from the column: present exactly when the column holds non-empty text that parses |
| DocumentStore.NewRow | packages/documents-core/src/database.ts:41-44 | the inserted row holds the arguments as given, and has metadata text exactly when the metadata given is truthy |
| DocumentStore.MetadataRoundTrip | packages/documents-core/src/database.ts:86-90 | reading metadata written by the column rule gives the value back when it is truthy, and nothing otherwise |
| DocumentStore.SavedRecord | packages/documents-core/src/database.ts:41-46 | the record `saveDocumentRecord` returns carries the given metadata when it was truthy and none otherwise, with the given id and file id |
| DocumentStore.Updated | packages/documents-core/src/database.ts:80-92 | an update never changes `id` or `fileId` |
| DocumentStore.Apply | packages/documents-core/src/database.ts:92 | `doc.update` never changes `id` or `fileId`, and an empty patch leaves the row as it was |
| DocumentStore.ApplyIdempotent | packages/documents-core/src/database.ts:92 | applying the same patch twice is applying it once |
| DocumentStore.EmptyUpdate | packages/documents-core/src/database.ts:73-92 | an update with every field undefined leaves the row as it was |
| DocumentStore.UpdatedMetadata | packages/documents-core/src/database.ts:86-90 | after an update that provides metadata, a read gives exactly the new value, or nothing when it is falsy, whatever was stored before; without it the metadata reads as before |
| DocumentStore.UpdatesCompose | packages/documents-core/src/database.ts:80-92 | two updates in a row equal one update in which the later value of each field wins |
| DocumentStore.UpdateIdempotent | packages/documents-core/src/database.ts:80-92 | applying the same update twice is applying it once |
| DocumentStore.DocumentTable.Save | packages/documents-core/src/database.ts:32-47 | inserts the row built from the arguments and returns it mapped; a duplicate id or a wrong-length embedding fails and leaves the table unchanged |
| DocumentStore.DocumentTable.Get | packages/documents-core/src/database.ts:49-55 | `None` exactly for an unknown id, otherwise the mapped row |
| DocumentStore.DocumentTable.Update | packages/documents-core/src/database.ts:57-94 | an unknown id gives `None` and no change; otherwise that row, and only it, becomes `Updated(row, updates)` and is returned mapped; a wrong-length embedding fails with no change |
| DocumentStore.DocumentTable.Delete | packages/documents-core/src/database.ts:96-101 | returns whether the id was present and removes exactly that row, so a second delete returns false |
| DocumentStore.DocumentTable.List | packages/documents-core/src/database.ts:103-106 | one mapped record per row, each row exactly once, in no promised order |
| DocumentStore.DocumentTable.GetByFileId | packages/documents-core/src/database.ts:108-114 | `None` exactly when no row has that file id, otherwise the mapped record of a row that has it |
| FileStore.StorageTypeOf | packages/postgresdb/src/models/File.ts:21 | only `local`, `s3` and `gcs` name a storage type, and each names the type whose tag it is |
| FileStore.TagRoundTrip | packages/postgresdb/src/models/File.ts:21 | the tag of a storage type names that type |
| FileStore.ReadMetadata | packages/files-core/src/database.ts:42 | absent or empty text gives no metadata; it fails exactly when the text is non-empty and does not parse, and otherwise gives the parsed value |
| FileStore.ReadersAgree | packages/files-core/src/database.ts:42 | the files mapper agrees with the documents mapper wherever it succeeds; where it throws, the documents mapper reports no metadata |
| FileStore.ToFileRecord | packages/files-core/src/database.ts:35-45 | mapping a row fails exactly when reading its metadata fails; otherwise the record copies every column unchanged and carries the metadata that was read |
| FileStore.NewRow | packages/files-core/src/database.ts:13 | the inserted row holds the arguments as given, and has metadata text exactly when a metadata object is given |
| FileStore.SavedRecord | packages/files-core/src/database.ts:13-25 | what `saveFileRecord` stores always reads back, with the given fields and the given metadata object |
| FileStore.Updated | packages/files-core/src/database.ts:60-71 | an update never changes the id, the storage type or the storage path |
| FileStore.Apply | packages/files-core/src/database.ts:71 | `file.update` never changes the id, the storage type or the storage path, and an empty patch leaves the row as it was |
| FileStore.ApplyIdempotent | packages/files-core/src/database.ts:71 | applying the same patch twice is applying it once |
| FileStore.EmptyUpdate | packages/files-core/src/database.ts:60-71 | an update with every field undefined leaves the row as it was |
| FileStore.UpdatedMetadata | packages/files-core/src/database.ts:65-69 | after an update that provides metadata, reading it succeeds with exactly the new value, or nothing when it is falsy, even when the old text was unreadable; without it the text stays |
| FileStore.FileTable.Save | packages/files-core/src/database.ts:4-26 | inserts the row built from the arguments and returns it mapped, which never fails; a duplicate id fails and leaves the table unchanged |
| FileStore.FileTable.Get | packages/files-core/src/database.ts:28-46 | `None` for an unknown id; for a known id the mapped row, or the parse error of its metadata |
| FileStore.FileTable.Update | packages/files-core/src/database.ts:48-74 | an unknown id gives `None` and no change; otherwise the row becomes `Updated(row, updates)` and is read back, and that read can still fail after the write |
| FileStore.FileTable.Delete | packages/files-core/src/database.ts:76-85 | returns whether the id was present and removes exactly that row |
| FileStore.FileTable.List | packages/files-core/src/database.ts:87-103 | fails exactly when some row's metadata is unreadable; otherwise one mapped record per row, each row exactly once |
| Files.GetStorage | packages/files-core/src/files.ts:11-23 | succeeds exactly for the tags `local`, `s3` and `gcs`, with the backend of that tag; any other tag gives "Unsupported storage type" with the tag |
| Files.Utf8Length | packages/files-core/src/files.ts:39-41 | a string's byte length is between one and four bytes per character, and equals its length exactly when it is ASCII |
| Files.ByteLength | packages/files-core/src/files.ts:39-41 | the size recorded is the number of bytes written to the backend |
| Files.Location | packages/files-core/src/storage/local.ts:12-15 | a backend fails with its own "config not provided" error exactly when its sub-config is missing |
| Files.Put | packages/files-core/src/files.ts:33 | a save succeeds exactly when the sub-config is present and the I/O completes, and then stores the bytes under the backend's location and the id |
| Files.Fetch | packages/files-core/src/files.ts:73 | a read succeeds exactly when the sub-config is present, the I/O completes and the object exists, and gives its bytes |
| Files.Remove | packages/files-core/src/files.ts:88 | a delete succeeds exactly when the sub-config is present and the I/O completes, and then the object is gone |
| Files.BlobStore.Save | packages/files-core/src/files.ts:33 | the objects become those `Put` gives, or stay as they were on failure |
| Files.BlobStore.Retrieve | packages/files-core/src/files.ts:73 | returns what `Fetch` gives for the current objects |
| Files.BlobStore.Delete | packages/files-core/src/files.ts:88 | the objects become those `Remove` gives, or stay as they were on failure |
| Files.SaveFileSpec | packages/files-core/src/files.ts:25-48 | a successful save returns the id and content it was given, for an id that had no record and now has one; no other record is touched |
| Files.SaveFileBlobFirst | packages/files-core/src/files.ts:31-45 | when the dispatch or the blob write fails, `saveFile` fails with no record inserted and nothing changed |
| Files.SaveFileNoRollback | packages/files-core/src/files.ts:33-45 | when the record insert fails after the blob write, the blob stays written and no record is added |
| Files.SaveFileRecord | packages/files-core/src/files.ts:36-47 | a successful `saveFile` returns the id and content it was given, and its record has the id as storage path, the configured type, the byte length as size, the given content type and metadata, and reads back |
| Files.RetrieveSpec | packages/files-core/src/files.ts:66-78 | the result is present exactly when the storage type is supported and the backend read succeeds (sub-config present, I/O completed, object stored), and then it carries the asked id and the stored bytes as a buffer |
| Files.SaveThenRetrieve | packages/files-core/src/files.ts:25-78 | after a successful `saveFile`, `retrieveFileById` gives back the same bytes |
| Files.DeleteFileBlobFirst | packages/files-core/src/files.ts:84-91 | `deleteFile` fails exactly when the dispatch or the blob delete fails, and then the record stays in place |
| Files.DeleteFileSpec | packages/files-core/src/files.ts:80-92 | a delete never adds a record or an object, never changes a stored object, and leaves every other record as it was |
| Files.DeleteThenRetrieve | packages/files-core/src/files.ts:80-92 | after a successful `deleteFile` the result says whether the record existed, the record is gone, and the content can no longer be retrieved |
| Files.DeleteFileAsWritten | packages/files-core/src/files.ts:80-92 | as written, a backend without a `deleteFile` export fails with nothing changed, and on GCS the call behaves as intended |
| Files.DeleteFileAsWrittenLocalS3 | packages/files-core/src/files.ts:87-88 | as written, `deleteFile` on the local or S3 backend throws before deleting anything |
| Files.DeleteFileDiscrepancy | packages/files-core/src/files.ts:80-92 | for one stored local file, the intended `deleteFile` removes blob and record while the one as written removes neither |
| Files.LastSegment | packages/files-core/src/files.ts:58 | the result is the suffix of the path after its last '/', or the whole path when it has none |
| Files.LastSegmentOfJoin | packages/files-core/src/files.ts:58 | the last segment of `dir + "/" + name` is `name` when `name` has no '/' |
| Files.UploadFilename | packages/files-core/src/files.ts:57-58 | a truthy `metadata.filename` is used as it is; otherwise the last segment of the path |
| Files.UploadOptionsFor | packages/files-core/src/files.ts:57-62 | the options passed on keep the content type and every given metadata member, and their `filename` reads as the derived filename |
| Files.UploadMetadata | packages/files-core/src/files.ts:59-63 | the uploaded metadata holds the derived filename and every other key as given, and the content type is kept |
| Files.SaveFile | packages/files-core/src/files.ts:25-48 | the result and the new blobs and rows are those `SaveFileSpec` gives |
| Files.UploadFile | packages/files-core/src/files.ts:50-64 | a failed read fails with nothing changed; otherwise it is `saveFile` of the bytes with the derived metadata |
| Files.RetrieveFileById | packages/files-core/src/files.ts:66-78 | returns what `RetrieveSpec` gives for the current objects |
| Files.DeleteFile | packages/files-core/src/files.ts:80-92 | the result and the new blobs and rows are those `DeleteFileSpec` gives |
| Embeddings.GetProvider | packages/embeddings-core/src/embeddings.ts:10-20 | `ollama` and `openai` select their providers, and any other tag gives "Unsupported embedding provider" with the tag |
| Embeddings.GetProviderConfig | packages/embeddings-core/src/embeddings.ts:22-38 | the sub-config the tag names, its own "config is required" error when it is missing, or the unsupported-provider error |
| Embeddings.ProviderMatchesConfig | packages/embeddings-core/src/embeddings.ts:10-38 | settings that pass always come with a provider of the same kind |
| Embeddings.GenerateEmbedding | packages/embeddings-core/src/embeddings.ts:40-52 | a provider call, when made, is a single-text call with the text as given, to the provider the tag names, with settings of that provider's kind |
| Embeddings.GenerateEmbeddings | packages/embeddings-core/src/embeddings.ts:54-66 | a provider call, when made, is a batch call with the texts as given, to the provider the tag names, with settings of that provider's kind |
| Embeddings.GenerateChecksFirst | packages/embeddings-core/src/embeddings.ts:40-66 | a provider is called exactly when the config passes `getProviderConfig`, with that provider and those settings; otherwise the config error is raised and no call is made |
| Embeddings.GetConfigFromEnv | packages/embeddings-core/src/embeddings.ts:78-111 | it fails, with "No embedding provider configured", exactly when neither the Ollama model nor the OpenAI key is set to a non-empty string |
| Embeddings.OllamaFirst | packages/embeddings-core/src/embeddings.ts:88-96 | a non-empty Ollama model gives the Ollama config with that model and the host, whatever the OpenAI variables hold |
| Embeddings.OpenAISecond | packages/embeddings-core/src/embeddings.ts:98-106 | with no Ollama model, a non-empty OpenAI key gives the OpenAI config with that key and the optional model |
| Embeddings.EnvConfigUsable | packages/embeddings-core/src/embeddings.ts:78-111 | any config read from the environment passes both `getProvider` and `getProviderConfig`, so generating reaches the provider |
| TextAtomizer.Atomize | packages/text-atomizer/src/index.ts:87-142 | fails exactly when the reply does not parse or does not have the decomposition shape, and on success returns the parsed value unchanged; a reply that does not parse gives the parse error, and `null` gives the property-read error |
| TextAtomizer.NotAnObject | packages/text-atomizer/src/index.ts:98-100 | a reply that parses to a non-object fails on its subject, except `null`, which fails on the property read |
| TextAtomizer.SubjectCheckedFirst | packages/text-atomizer/src/index.ts:98-108 | a subject that is neither a string nor null is reported whatever the predicate holds |
| TextAtomizer.PredicateCheckedSecond | packages/text-atomizer/src/index.ts:102-108 | with a valid subject, a `predicate` that is missing or not an object is the error reported |
| TextAtomizer.TextBeforeVerb | packages/text-atomizer/src/index.ts:110-116 | inside the predicate, a bad `text` is reported before `verb` is looked at, and a bad `verb` after a good `text` |
| TextAtomizer.ArrayChecks | packages/text-atomizer/src/index.ts:118-140 | once subject, predicate, text and verb pass, each of the four array errors is raised exactly when every earlier check passes and its own fails |
| TextAtomizer.ComplementsBeforeAdjuncts | packages/text-atomizer/src/index.ts:118-140 | a bad `complements` is reported before `adjuncts` is looked at |
| TextAtomizer.ToJsonIsDecomposition | packages/text-atomizer/src/index.ts:58-68 | every typed decomposition written as a JSON object has the shape the check demands |
| TextAtomizer.AcceptsEveryDecomposition | packages/text-atomizer/src/index.ts:89-142 | every decomposition, including a null subject and empty arrays, passes the check once written as JSON, and comes back unchanged |

## Left out

- Timestamps: `createdAt` and `updatedAt` are set by the database and are not modelled.
- Database failures other than a duplicate key and a wrong-length embedding are not modelled: lost connections, VARCHAR(255) length limits, UUID syntax of the id columns, and the INTEGER range of `size`.
- Numbers: JSON numbers are unbounded integers, and embeddings are sequences of integers. JavaScript numbers are doubles, so two behaviours of the source are not modelled. `JSON.parse` rounds integers above 2^53 to the nearest double, where the model keeps them exact. `JSON.stringify` writes integers of 1e21 and above in exponent form (`1e+21`), where the model writes every digit. `Json.Parse` REJECTS valid JSON text that has a fraction or an exponent (`0.5`, `1e3`), where `JSON.parse` accepts it. So for such text the model answers differently from the source: `TextAtomizer.Atomize` reports a parse failure, `DocumentStore.ParseMetadata` gives no metadata, `FileStore.ReadMetadata` fails, and `PgVector.VectorType.Sanitize` returns the string unchanged. Floating point is not modelled.
- JSON strings: the parser accepts `\u` escapes of scalar values only and rejects surrogate pairs. JavaScript strings are UTF-16, but a Dafny `char` is a Unicode scalar value, so lone surrogates cannot be represented.
- JSON objects: the model keeps every member in the order written, and a read takes the last one with a key, as `JSON.parse` does. `JSON.parse` itself keeps a repeated key at its first position, which the model does not. `Json.Stringify` writes members in the order given, whereas `JSON.stringify` writes integer-like keys first, in ascending order, because that is the property order of a JavaScript object. The model does not reorder such keys, so the text it writes for an object with such keys differs from the source's. The value read back is the same.
- Vector column writes: the table keeps a vector as a sequence. Binding it through `toBindableValue` and reading it back is covered by `PgVector.ParseBoundValue`. Whether Sequelize calls `validate` on writes depends on its configuration. The model enforces the 1536 dimension as the database does, as an invariant of the table.
- FileStore.NewRow: `saveFileRecord` hands the metadata object to `File.create` unserialised (packages/files-core/src/database.ts:13), although the column is TEXT. The model assumes that the database layer stores such an object as its JSON text. Nothing in this code guarantees it: the documents mapper stringifies explicitly (packages/documents-core/src/database.ts:43). `FileStore.SavedRecord`, `FileStore.FileTable.Save` and `Files.SaveFileRecord` promise that the saved metadata reads back, and they rest on this assumption. If the layer binds the object differently, the insert or the read-back may fail, and the model does not capture that.
- DocumentStore.DocumentTable.Save: when the embedding has the wrong length and the id is also taken, the model reports the embedding error first. Which of the two errors the database reports first is not specified by this code.
- Storage backends: each I/O call is one `ioOk` flag. A missing object on read is an error. Whether deleting a missing object is an error depends on the backend, so that is part of the flag too.
- Object keys: a key is the backend, the directory or bucket, and the id. `path.join` normalisation is not modelled, and neither is the S3 region or credentials.
- `retrieveFileById` returns the stored bytes as a buffer. The string-versus-buffer choice made by each SDK is not modelled.
- Embedding providers: the Ollama and OpenAI network clients are not modelled. The model stops at the call that would be made (`Embeddings.ProviderCall`).
- `atomizeText`: the Ollama chat call and the prompt are not modelled. The text of the parser's own error is a parameter of `TextAtomizer.Message`.
- `packages/documents-core/src/documents.ts` (an older wrapper around `saveFile`) is not part of this model. Document create/update/delete orchestration and similarity search are not part of this model either: their implementations are not among the modelled files, and the ranking is floating point.
- The HTTP and MCP adapters, the raw-SQL memory functions, the CLI and the website are not part of this model.
- Concurrency: every operation is atomic in the model, so interleaved calls are not modelled.

## Findings

| source | as written | input that shows it | evidently intended | confidence | as-written member | corrected member |
|---|---|---|---|---|---|---|
| packages/files-core/src/files.ts:88 | `deleteFile` calls `storage.deleteFile`, which only the GCS backend defines (packages/files-core/src/storage/gcs.ts:41). The local and S3 backends name theirs `delete` (packages/files-core/src/storage/local.ts:31, packages/files-core/src/storage/s3.ts:50). `delete` is a reserved word, so `export const delete` does not even parse: as written those two modules fail to compile or to load, and with them `files.ts`, so no file operation runs on any backend. If they were loaded, `storage.deleteFile` would be undefined on the local and S3 backends, and the call would throw a `TypeError` before deleting the blob or the record. The model captures this second consequence only | a `local` config with `path` `/data` and a stored file `f1` | name the export `deleteFile` (or call `delete` under a legal binding), so that the blob is deleted and then the record, on every backend | high, not executed | Files.DeleteFileAsWrittenLocalS3, Files.DeleteFileDiscrepancy | Files.DeleteThenRetrieve, Files.DeleteFileBlobFirst |

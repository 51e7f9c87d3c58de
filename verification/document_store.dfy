/**
 * The record mapper over the `documents` table
 * (packages/documents-core/src/database.ts). The table is a map from id to
 * row held in `DocumentTable`; metadata is stored as JSON text and parsed on
 * every read, and a missing id is reported as `None` or `false`.
 */
module DocumentStore {
  import opened Wrappers
  import opened Json
  import PgVector
  import opened Metadata

  /** The `embedding` column's type: `VECTOR(1536)`. */
  const EmbeddingColumn: PgVector.VectorType := PgVector.VECTOR(1536)

  /** A row as the table holds it: `metadata` is JSON text. Timestamps are not modelled. */
  datatype DocumentRow = DocumentRow(
    id: string,
    title: Option<string>,
    fileId: string,
    embeddingModel: Option<string>,
    embeddingProvider: Option<string>,
    embedding: Option<seq<int>>,
    metadata: Option<string>)

  /** A row as the mapper hands it out: `metadata` is the parsed value. */
  datatype DocumentRecord = DocumentRecord(
    id: string,
    title: Option<string>,
    fileId: string,
    embeddingModel: Option<string>,
    embeddingProvider: Option<string>,
    embedding: Option<seq<int>>,
    metadata: Option<Json>)

  /** The arguments of `saveDocumentRecord`; `None` is an omitted field. */
  datatype NewDocument = NewDocument(
    id: string,
    title: Option<string>,
    fileId: string,
    embeddingModel: Option<string>,
    embeddingProvider: Option<string>,
    embedding: Option<seq<int>>,
    metadata: Option<Json>)

  /** The `updates` of `updateDocumentRecord`; `None` is `undefined`. */
  datatype DocumentUpdates = DocumentUpdates(
    title: Option<string>,
    embeddingModel: Option<string>,
    embeddingProvider: Option<string>,
    embedding: Option<seq<int>>,
    metadata: Option<Json>)

  /**
   * The `updateData` object built by `updateDocumentRecord`: `None` is a key
   * that was never set; `metadata: Some(None)` is an explicit `null`.
   */
  datatype DocumentPatch = DocumentPatch(
    title: Option<string>,
    embeddingModel: Option<string>,
    embeddingProvider: Option<string>,
    embedding: Option<seq<int>>,
    metadata: Option<Option<string>>)

  /** What the database refuses: a second row with the same key, or an embedding of the wrong length. */
  datatype StoreError = DuplicateId(id: string) | EmbeddingDimension(length: int)

  /** An embedding the `VECTOR(1536)` column accepts (an absent one is `NULL`). */
  predicate EmbeddingFits(e: Option<seq<int>>) {
    e.None? || EmbeddingColumn.Validate(PgVector.Numbers(e.value)).Ok?
  }

  lemma EmbeddingFitsLength(e: Option<seq<int>>)
    ensures EmbeddingFits(e) <==> e.None? || |e.value| == 1536
  {
    if e.Some? {
      PgVector.ValidateNumbers(EmbeddingColumn, e.value);
    }
  }

  /** `parseMetadata`: absent, empty or unparsable text gives `None`; it never fails. */
  function ParseMetadata(text: Option<string>): (r: Option<Json>)
    ensures text.None? || text == Some("") ==> r.None?
    ensures r.Some? <==> text.Some? && Parse(text.value).Some?
    ensures r.Some? ==> r == Parse(text.value)
  {
    if text.None? || text.value == "" then None else Parse(text.value)
  }

  /** What a read gives back for metadata written through `MetadataColumn`. */
  lemma {:induction false} MetadataRoundTrip(m: Json)
    ensures ParseMetadata(MetadataColumn(m)) == if Truthy(m) then Some(m) else None
  {
    if Truthy(m) {
      ColumnParses(m);
    }
  }

  /** `toDocumentRecord`: every column is copied, and the metadata text is read with `parseMetadata`. */
  function ToDocumentRecord(row: DocumentRow): (r: DocumentRecord)
    ensures r.id == row.id && r.title == row.title && r.fileId == row.fileId
    ensures r.embeddingModel == row.embeddingModel && r.embeddingProvider == row.embeddingProvider
    ensures r.embedding == row.embedding
    ensures r.metadata == ParseMetadata(row.metadata)
    ensures r.metadata.Some? <==> row.metadata.Some? && row.metadata.value != "" && Parse(row.metadata.value).Some?
  {
    DocumentRecord(row.id, row.title, row.fileId, row.embeddingModel, row.embeddingProvider,
                   row.embedding, ParseMetadata(row.metadata))
  }

  /** The row `saveDocumentRecord` inserts: the arguments as given, with the metadata as text when it is truthy. */
  function NewRow(args: NewDocument): (r: DocumentRow)
    ensures r.id == args.id && r.title == args.title && r.fileId == args.fileId
    ensures r.embeddingModel == args.embeddingModel && r.embeddingProvider == args.embeddingProvider
    ensures r.embedding == args.embedding
    ensures r.metadata.Some? <==> args.metadata.Some? && Truthy(args.metadata.value)
  {
    DocumentRow(args.id, args.title, args.fileId, args.embeddingModel, args.embeddingProvider,
                args.embedding, if args.metadata.Some? then MetadataColumn(args.metadata.value) else None)
  }

  /** The record `saveDocumentRecord` returns carries the metadata it was given when that is truthy, and none otherwise. */
  lemma {:induction false} SavedRecord(args: NewDocument)
    ensures ToDocumentRecord(NewRow(args)).metadata
            == if args.metadata.Some? && Truthy(args.metadata.value) then args.metadata else None
    ensures ToDocumentRecord(NewRow(args)).id == args.id && ToDocumentRecord(NewRow(args)).fileId == args.fileId
  {
    if args.metadata.Some? {
      MetadataRoundTrip(args.metadata.value);
    }
  }

  /**
   * `doc.update(updateData)`: every key present in the patch overwrites its
   * column; the key columns are not in the patch and never change, and an
   * empty patch changes nothing.
   */
  function Apply(row: DocumentRow, p: DocumentPatch): (r: DocumentRow)
    ensures r.id == row.id && r.fileId == row.fileId
    ensures p == DocumentPatch(None, None, None, None, None) ==> r == row
  {
    row.(title := if p.title.Some? then p.title else row.title,
         embeddingModel := if p.embeddingModel.Some? then p.embeddingModel else row.embeddingModel,
         embeddingProvider := if p.embeddingProvider.Some? then p.embeddingProvider else row.embeddingProvider,
         embedding := if p.embedding.Some? then p.embedding else row.embedding,
         metadata := if p.metadata.Some? then p.metadata.value else row.metadata)
  }

  /** The row after `updateDocumentRecord`, field by field: a field given a value takes it, every other field keeps its old one. */
  function Updated(row: DocumentRow, u: DocumentUpdates): (r: DocumentRow)
    ensures r.id == row.id && r.fileId == row.fileId
  {
    DocumentRow(
      row.id,
      if u.title.Some? then u.title else row.title,
      row.fileId,
      if u.embeddingModel.Some? then u.embeddingModel else row.embeddingModel,
      if u.embeddingProvider.Some? then u.embeddingProvider else row.embeddingProvider,
      if u.embedding.Some? then u.embedding else row.embedding,
      if u.metadata.Some? then MetadataColumn(u.metadata.value) else row.metadata)
  }

  /** An update with every field `undefined` changes nothing. */
  lemma EmptyUpdate(row: DocumentRow)
    ensures Updated(row, DocumentUpdates(None, None, None, None, None)) == row
  {
  }

  /**
   * Metadata is replaced, never merged: after an update that provides it,
   * a read gives back exactly the new value when it is truthy and nothing
   * when it is falsy, whatever the row held before.
   */
  lemma {:induction false} UpdatedMetadata(row: DocumentRow, u: DocumentUpdates)
    ensures ToDocumentRecord(Updated(row, u)).metadata
            == match u.metadata
               case None => ToDocumentRecord(row).metadata
               case Some(m) => if Truthy(m) then Some(m) else None
  {
    if u.metadata.Some? {
      MetadataRoundTrip(u.metadata.value);
    }
  }

  /** Two updates in a row are one update in which the later value of each field wins. */
  function Then(first: DocumentUpdates, second: DocumentUpdates): DocumentUpdates {
    DocumentUpdates(
      if second.title.Some? then second.title else first.title,
      if second.embeddingModel.Some? then second.embeddingModel else first.embeddingModel,
      if second.embeddingProvider.Some? then second.embeddingProvider else first.embeddingProvider,
      if second.embedding.Some? then second.embedding else first.embedding,
      if second.metadata.Some? then second.metadata else first.metadata)
  }

  lemma UpdatesCompose(row: DocumentRow, first: DocumentUpdates, second: DocumentUpdates)
    ensures Updated(Updated(row, first), second) == Updated(row, Then(first, second))
  {
  }

  /** Applying the same patch a second time changes nothing more. */
  lemma ApplyIdempotent(row: DocumentRow, p: DocumentPatch)
    ensures Apply(Apply(row, p), p) == Apply(row, p)
  {
  }

  /** Repeating an update changes nothing more. */
  lemma UpdateIdempotent(row: DocumentRow, u: DocumentUpdates)
    ensures Updated(Updated(row, u), u) == Updated(row, u)
  {
    UpdatesCompose(row, u, u);
    assert Then(u, u) == u;
  }

  /** The `documents` table. */
  class DocumentTable {
    var rows: map<string, DocumentRow>

    /** Every row is filed under its own id and its embedding fits the column. */
    ghost predicate Valid()
      reads this
    {
      forall id :: id in rows ==> rows[id].id == id && EmbeddingFits(rows[id].embedding)
    }

    constructor()
      ensures Valid() && rows == map[]
    {
      rows := map[];
    }

    /** `saveDocumentRecord`: insert the row and return it mapped. */
    method Save(args: NewDocument) returns (r: Result<DocumentRecord, StoreError>)
      requires Valid()
      modifies this
      ensures Valid()
      ensures r.Ok? <==> EmbeddingFits(args.embedding) && args.id !in old(rows)
      ensures r.Ok? ==> rows == old(rows)[args.id := NewRow(args)] && r.value == ToDocumentRecord(NewRow(args))
      ensures r.Err? ==> rows == old(rows)
    {
      if !EmbeddingFits(args.embedding) {
        return Err(EmbeddingDimension(|args.embedding.value|));
      }
      if args.id in rows {
        return Err(DuplicateId(args.id));
      }
      var row := NewRow(args);
      rows := rows[args.id := row];
      r := Ok(ToDocumentRecord(row));
    }

    /** `getDocumentRecord`: the mapped row, or `None` for an unknown id. */
    method Get(id: string) returns (r: Option<DocumentRecord>)
      ensures r.None? <==> id !in rows
      ensures r.Some? ==> r.value == ToDocumentRecord(rows[id])
    {
      if id !in rows {
        return None;
      }
      r := Some(ToDocumentRecord(rows[id]));
    }

    /**
     * `updateDocumentRecord`: an unknown id gives `Ok(None)` and changes
     * nothing; otherwise the patch is built one field at a time, applied,
     * and the row is read back.
     */
    method Update(id: string, u: DocumentUpdates) returns (r: Result<Option<DocumentRecord>, StoreError>)
      requires Valid()
      modifies this
      ensures Valid()
      ensures id !in old(rows) ==> r == Ok(None) && rows == old(rows)
      ensures id in old(rows) && !EmbeddingFits(u.embedding) ==> r.Err? && rows == old(rows)
      ensures id in old(rows) && EmbeddingFits(u.embedding) ==>
                rows == old(rows)[id := Updated(old(rows)[id], u)]
                && r == Ok(Some(ToDocumentRecord(Updated(old(rows)[id], u))))
    {
      if id !in rows {
        return Ok(None);
      }
      var doc := rows[id];
      var updateData := DocumentPatch(None, None, None, None, None);
      if u.title.Some? {
        updateData := updateData.(title := u.title);
      }
      if u.embeddingModel.Some? {
        updateData := updateData.(embeddingModel := u.embeddingModel);
      }
      if u.embeddingProvider.Some? {
        updateData := updateData.(embeddingProvider := u.embeddingProvider);
      }
      if u.embedding.Some? {
        updateData := updateData.(embedding := u.embedding);
      }
      if u.metadata.Some? {
        updateData := updateData.(metadata := Some(MetadataColumn(u.metadata.value)));
      }
      assert updateData.embedding == u.embedding;
      if !EmbeddingFits(updateData.embedding) {
        return Err(EmbeddingDimension(|updateData.embedding.value|));
      }
      var updated := Apply(doc, updateData);
      assert updated == Updated(doc, u);
      rows := rows[id := updated];
      var record := Get(id);
      r := Ok(record);
    }

    /** `deleteDocumentRecord`: `false` for an unknown id, else the row is removed and `true` returned. */
    method Delete(id: string) returns (r: bool)
      requires Valid()
      modifies this
      ensures Valid()
      ensures r == (id in old(rows))
      ensures rows == old(rows) - {id}
    {
      if id !in rows {
        return false;
      }
      rows := rows - {id};
      r := true;
    }

    /** `listDocumentRecords`: one mapped record per row, in no particular order. */
    method List() returns (r: seq<DocumentRecord>)
      requires Valid()
      ensures |r| == |rows|
      ensures forall i :: 0 <= i < |r| ==> r[i].id in rows && r[i] == ToDocumentRecord(rows[r[i].id])
      ensures forall i, j :: 0 <= i < j < |r| ==> r[i].id != r[j].id
      ensures forall id :: id in rows ==> exists i :: 0 <= i < |r| && r[i].id == id
    {
      var left := rows.Keys;
      ghost var ids: seq<string> := [];
      r := [];
      while left != {}
        invariant left <= rows.Keys
        invariant |r| == |ids|
        invariant forall i :: 0 <= i < |ids| ==> ids[i] in rows && ids[i] !in left && r[i] == ToDocumentRecord(rows[ids[i]])
        invariant forall i, j :: 0 <= i < j < |ids| ==> ids[i] != ids[j]
        invariant forall id :: id in rows && id !in left ==> id in ids
        invariant |ids| + |left| == |rows.Keys|
        decreases |left|
      {
        var id :| id in left;
        r := r + [ToDocumentRecord(rows[id])];
        ids := ids + [id];
        left := left - {id};
      }
      assert forall i :: 0 <= i < |r| ==> r[i].id == ids[i];
    }

    /** `getDocumentRecordByFileId`: some row with that `fileId`, or `None` when there is none. */
    method GetByFileId(fileId: string) returns (r: Option<DocumentRecord>)
      requires Valid()
      ensures r.None? <==> forall id :: id in rows ==> rows[id].fileId != fileId
      ensures r.Some? ==> r.value.fileId == fileId && r.value.id in rows && r.value == ToDocumentRecord(rows[r.value.id])
    {
      var left := rows.Keys;
      while left != {}
        invariant left <= rows.Keys
        invariant forall id :: id in rows.Keys - left ==> rows[id].fileId != fileId
        decreases |left|
      {
        var id :| id in left;
        if rows[id].fileId == fileId {
          return Some(ToDocumentRecord(rows[id]));
        }
        left := left - {id};
      }
      r := None;
    }
  }
}

/**
 * The metadata column rule both record mappers share: a metadata value is
 * written as its JSON text when it is truthy and as `NULL` otherwise
 * (packages/documents-core/src/database.ts:43,86-90 and
 * packages/files-core/src/database.ts:65-69).
 */
module Metadata {
  import opened Wrappers
  import opened Json

  /** The column text for a metadata value. */
  function MetadataColumn(m: Json): (r: Option<string>)
    ensures r.Some? <==> Truthy(m)
  {
    if Truthy(m) then Some(Stringify(m)) else None
  }

  /** Text written for a truthy value is non-empty, so a reader's emptiness test passes it, and it parses back to the value. */
  lemma {:induction false} ColumnParses(m: Json)
    requires Truthy(m)
    ensures MetadataColumn(m).Some?
    ensures MetadataColumn(m).value != ""
    ensures Parse(MetadataColumn(m).value) == Some(m)
  {
    ParseStringify(m);
  }
}

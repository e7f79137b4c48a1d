/** `add_documents` of src/services/document.py: one `documents` row per document, all
    owned by the uploading organization. */
module DocumentService {
  import opened Errors
  import opened Schemas
  import opened Tables
  import opened Database

  /** The rows inserted for `docs`, numbered from `firstId` by the serial sequence. */
  function DocumentRows(firstId: int, uploaderId: int, docs: seq<DocumentAttribute>): (rows: seq<Document>)
    ensures |rows| == |docs|
    ensures forall i :: 0 <= i < |docs| ==>
              && rows[i].id == firstId + i && rows[i].uploaderId == uploaderId
              && rows[i].attributes.fileUrl == docs[i].fileUrl
              && rows[i].attributes.name == docs[i].name
              && rows[i].attributes.kind == docs[i].kind
  {
    seq(|docs|, i requires 0 <= i < |docs| => Document(firstId + i, uploaderId, docs[i]))
  }

  const UPLOADER_FKEY := "documents_uploader_id_fkey"

  /** The NOT NULL column an insert without document values leaves empty. */
  const FILE_URL_NOT_NULL := "documents.file_url"

  /** `add_documents(db, uploader_id, documents)`. None inserts nothing. Otherwise the one
      insert adds a row per document or, when the uploader is not an organization, is
      refused as a whole by the foreign key. An empty list is executed as a single
      insert of `uploader_id` alone, which the NOT NULL `file_url` column refuses. */
  method AddDocuments(db: Session, uploaderId: int, documents: Option<seq<DocumentAttribute>>) returns (r: Result<()>)
    requires db.Valid()
    modifies db`documents, db`nextDocumentId
    ensures db.Valid()
    ensures documents.None? ==>
              r == Ok(()) && db.documents == old(db.documents) && db.nextDocumentId == old(db.nextDocumentId)
    ensures documents == Some([]) ==>
              && r == Err(Integrity(FILE_URL_NOT_NULL))
              && db.documents == old(db.documents) && db.nextDocumentId == old(db.nextDocumentId)
    ensures documents.Some? && |documents.value| > 0 && uploaderId !in Keys(db.organizations, OrganizationKey) ==>
              && r == Err(Integrity(UPLOADER_FKEY))
              && db.documents == old(db.documents) && db.nextDocumentId == old(db.nextDocumentId)
    ensures documents.Some? && |documents.value| > 0 && uploaderId in Keys(db.organizations, OrganizationKey) ==>
              && r == Ok(())
              && db.documents == old(db.documents) + DocumentRows(old(db.nextDocumentId), uploaderId, documents.value)
              && db.nextDocumentId == old(db.nextDocumentId) + |documents.value|
  {
    if documents.None? {
      return Ok(());
    }
    var docs := documents.value;
    if |docs| == 0 {
      return Err(Integrity(FILE_URL_NOT_NULL));
    }
    if uploaderId !in Keys(db.organizations, OrganizationKey) {
      return Err(Integrity(UPLOADER_FKEY));
    }
    var i := 0;
    while i < |docs|
      invariant 0 <= i <= |docs|
      invariant db.Valid()
      invariant db.nextDocumentId == old(db.nextDocumentId) + i
      invariant db.documents == old(db.documents) + DocumentRows(old(db.nextDocumentId), uploaderId, docs[..i])
    {
      var row := Document(db.nextDocumentId, uploaderId, docs[i]);
      SerialAppend(db.documents, row, DocumentKey, db.nextDocumentId);
      KeysAppend(db.documents, row, DocumentKey);
      ReferencesWiden(db.applicationDocuments, AppDocDocument, Keys(db.documents, DocumentKey), Keys(db.documents + [row], DocumentKey));
      assert DocumentRows(old(db.nextDocumentId), uploaderId, docs[..i + 1])
             == DocumentRows(old(db.nextDocumentId), uploaderId, docs[..i]) + [row];
      db.documents := db.documents + [row];
      db.nextDocumentId := db.nextDocumentId + 1;
      i := i + 1;
    }
    assert docs[..i] == docs;
    return Ok(());
  }
}

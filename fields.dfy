/**
 * The field names of a content item that the hooks read and write, and of the
 * rendition records held under `renditions`.
 */
module Fields {

  const GUID := "guid"
  const ID := "_id"
  const FIRSTCREATED := "firstcreated"
  const VERSIONCREATED := "versioncreated"
  const TYPE := "type"
  const VERSION := "version"
  const MIMETYPE := "mimetype"
  const FILEMETA := "filemeta"
  const RENDITIONS := "renditions"
  const MEDIA := "media"
  const MEDIA_FETCHED := "media_fetched"
  const IMPORT := "_import"

  /** The fields of one rendition record. */
  const HREF := "href"
  const WIDTH := "width"
  const HEIGHT := "height"

  /** The item fields are pairwise distinct, so setting one leaves the others alone. */
  lemma FieldNamesDistinct()
    ensures FIRSTCREATED != VERSIONCREATED && FIRSTCREATED != GUID && FIRSTCREATED != ID
    ensures VERSIONCREATED != GUID && VERSIONCREATED != ID && GUID != ID
    ensures IMPORT != GUID && IMPORT != TYPE && IMPORT != VERSION && IMPORT != VERSIONCREATED
    ensures IMPORT != FIRSTCREATED && IMPORT != MEDIA_FETCHED
    ensures MEDIA_FETCHED != GUID && MEDIA_FETCHED != TYPE && MEDIA_FETCHED != VERSION
    ensures MEDIA_FETCHED != VERSIONCREATED && MEDIA_FETCHED != FIRSTCREATED
    ensures MEDIA_FETCHED != RENDITIONS && MEDIA_FETCHED != MIMETYPE && MEDIA_FETCHED != FILEMETA
    ensures MEDIA != GUID && MEDIA != TYPE && MEDIA != VERSION && MEDIA != VERSIONCREATED && MEDIA != FIRSTCREATED
    ensures MEDIA != RENDITIONS && MEDIA != MIMETYPE && MEDIA != FILEMETA && MEDIA != MEDIA_FETCHED
    ensures GUID != TYPE && GUID != VERSION && GUID != RENDITIONS
    ensures GUID != MIMETYPE && GUID != FILEMETA
    ensures TYPE != VERSION && TYPE != VERSIONCREATED && TYPE != RENDITIONS && TYPE != MIMETYPE && TYPE != FILEMETA
    ensures VERSION != VERSIONCREATED && VERSION != RENDITIONS && VERSION != MIMETYPE && VERSION != FILEMETA
    ensures VERSIONCREATED != RENDITIONS && VERSIONCREATED != MIMETYPE && VERSIONCREATED != FILEMETA
    ensures FIRSTCREATED != TYPE && FIRSTCREATED != VERSION
    ensures FIRSTCREATED != RENDITIONS && FIRSTCREATED != MIMETYPE && FIRSTCREATED != FILEMETA
    ensures RENDITIONS != MIMETYPE && RENDITIONS != FILEMETA && MIMETYPE != FILEMETA
  {
    assert IMPORT[0] == '_' && VERSION[0] == 'v' && ID[0] == '_' && |ID| == 3 && |IMPORT| == 7;
    assert RENDITIONS[0] == 'r' && VERSIONCREATED[0] == 'v';
    assert MIMETYPE[0] == 'm' && FILEMETA[0] == 'f' && FIRSTCREATED[0] == 'f' && |FILEMETA| == 8 && |FIRSTCREATED| == 12;
    assert GUID[0] == 'g' && TYPE[0] == 't';
    assert MEDIA_FETCHED[0] == 'm' && |MEDIA_FETCHED| == 13 && |MIMETYPE| == 8 && |MEDIA| == 5;
  }
}

/**
 * Importing a remote file as a rendition of an existing archive-media item
 * (`import_rendition`, `import_media`, `fetch_media_from_archive`).
 *
 * The download of `store_file_from_url` is the parameter `download` (None
 * where it raises); the stored file's public URL is `url(id)`.
 */
module Import {
  import opened Values
  import opened Storage
  import opened Fields

  const BASE_IMAGE := "baseImage"

  function NoDocumentMessage(guid: string): string {
    "No document found in the media archive with this ID: " + guid
  }

  function InvalidRenditionMessage(name: string): string {
    "Invalid rendition name " + name
  }

  /** `fetch_media_from_archive(guid)`: the item with that `_id`, an error when there is none (or it is empty). */
  function FetchMediaFromArchive(docs: map<string, Doc>, guid: string): (r: Result<Doc, Error>)
    ensures r.Ok? <==> guid in docs && docs[guid] != map[]
    ensures r.Ok? ==> r.value == docs[guid]
    ensures r.Err? ==> r.error == SuperdeskError(NoDocumentMessage(guid))
  {
    if guid in docs && Truthy(Dict(docs[guid])) then Ok(docs[guid])
    else Err(SuperdeskError(NoDocumentMessage(guid)))
  }

  /** The test `rendition_name not in archive['renditions']`, with the errors it can raise. */
  function CheckRendition(archive: Doc, name: string): (r: Outcome)
    ensures r == Done <==> RENDITIONS in archive && archive[RENDITIONS].Dict? && name in archive[RENDITIONS].fields
  {
    if RENDITIONS !in archive then Raised(KeyError(RENDITIONS))
    else match archive[RENDITIONS]
      case Dict(rs) => if name in rs then Done else Raised(SuperdeskError(InvalidRenditionMessage(name)))
      case _ => Raised(TypeError)
  }

  /** The item after `update(id, {'renditions': {name: {'href': href}}})`, merged into what it held. */
  function WithRenditionHref(archive: Doc, name: string, href: string): Doc
    requires CheckRendition(archive, name) == Done
  {
    var rs := archive[RENDITIONS].fields;
    var entry := if rs[name].Dict? then rs[name].fields else map[];
    archive[RENDITIONS := Dict(rs[name := Dict(entry[HREF := Str(href)])])]
  }

  /** The value an import returns, with the archive and media storage it leaves. */
  datatype Imported = Imported(result: Result<Doc, Error>, docs: map<string, Doc>,
                               files: map<MediaId, File>, next: MediaId)

  /** What `import_rendition(guid, name, href)` does, from the stores' state before it. */
  function ImportSpec(docs: map<string, Doc>, files: map<MediaId, File>, next: MediaId,
                      guid: string, name: string, href: string,
                      download: string -> Option<File>, url: MediaId -> string): Imported
  {
    match FetchMediaFromArchive(docs, guid)
    case Err(e) => Imported(Err(e), docs, files, next)
    case Ok(archive) =>
      match CheckRendition(archive, name)
      case Raised(e) => Imported(Err(e), docs, files, next)
      case Done =>
        match download(href)
        case None => Imported(Err(DownloadError), docs, files, next)
        case Some(f) =>
          var updated := WithRenditionHref(archive, name, url(next));
          Imported(Ok(updated), docs[guid := updated], files[next := f], next + 1)
  }

  /** An import that fails stores no file and changes no item. */
  lemma ImportErrorChangesNothing(docs: map<string, Doc>, files: map<MediaId, File>, next: MediaId,
                                  guid: string, name: string, href: string,
                                  download: string -> Option<File>, url: MediaId -> string)
    ensures var i := ImportSpec(docs, files, next, guid, name, href, download, url);
      i.result.Err? ==> i.docs == docs && i.files == files && i.next == next
  {
  }

  /** Importing into an item that does not exist reports it, before anything is stored. */
  lemma ImportMissingDocument(docs: map<string, Doc>, files: map<MediaId, File>, next: MediaId,
                              guid: string, name: string, href: string,
                              download: string -> Option<File>, url: MediaId -> string)
    requires guid !in docs || docs[guid] == map[]
    ensures ImportSpec(docs, files, next, guid, name, href, download, url) ==
            Imported(Err(SuperdeskError(NoDocumentMessage(guid))), docs, files, next)
  {
  }

  /** Importing a rendition the item does not already declare reports it, before anything is stored. */
  lemma ImportUndeclaredRendition(docs: map<string, Doc>, files: map<MediaId, File>, next: MediaId,
                                  guid: string, name: string, href: string,
                                  download: string -> Option<File>, url: MediaId -> string)
    requires guid in docs && RENDITIONS in docs[guid] && docs[guid][RENDITIONS].Dict?
    requires name !in docs[guid][RENDITIONS].fields
    ensures ImportSpec(docs, files, next, guid, name, href, download, url) ==
            Imported(Err(SuperdeskError(InvalidRenditionMessage(name))), docs, files, next)
  {
    assert docs[guid] != map[];
  }

  /**
   * A successful import stores the downloaded file under a fresh id and
   * changes only `renditions[name].href` of that one item, to the file's URL.
   */
  lemma ImportChangesOnlyHref(docs: map<string, Doc>, files: map<MediaId, File>, next: MediaId,
                              guid: string, name: string, href: string,
                              download: string -> Option<File>, url: MediaId -> string)
    requires forall id :: id in files ==> id < next
    ensures var i := ImportSpec(docs, files, next, guid, name, href, download, url);
      i.result.Ok? ==>
        && guid in docs && download(href).Some?
        && next !in files && i.files == files[next := download(href).value] && i.next == next + 1
        && i.docs == docs[guid := i.result.value]
        && var before, after := docs[guid], i.result.value;
           && after.Keys == before.Keys
           && (forall k :: k in before && k != RENDITIONS ==> after[k] == before[k])
           && before[RENDITIONS].Dict? && after[RENDITIONS].Dict?
           && var rs, rs' := before[RENDITIONS].fields, after[RENDITIONS].fields;
              && rs'.Keys == rs.Keys && name in rs
              && (forall n :: n in rs && n != name ==> rs'[n] == rs[n])
              && rs'[name].Dict? && HREF in rs'[name].fields
              && rs'[name].fields[HREF] == Str(url(next))
              && (rs[name].Dict? ==> forall k :: k in rs[name].fields && k != HREF ==>
                                       k in rs'[name].fields && rs'[name].fields[k] == rs[name].fields[k])
  {
  }

  /** `import_rendition(guid, name, href)`. */
  method ImportRendition(archive: ArchiveCollection, media: MediaStorage,
                         guid: string, name: string, href: string,
                         download: string -> Option<File>, url: MediaId -> string)
    returns (r: Result<Doc, Error>)
    requires media.Valid()
    modifies archive, media
    ensures media.Valid()
    ensures Imported(r, archive.docs, media.files, media.next) ==
            ImportSpec(old(archive.docs), old(media.files), old(media.next), guid, name, href, download, url)
  {
    var fetched := FetchMediaFromArchive(archive.docs, guid);
    if fetched.Err? {
      return Err(fetched.error);
    }
    var doc := fetched.value;
    var check := CheckRendition(doc, name);
    if check.Raised? {
      return Err(check.error);
    }
    var file := download(href);
    if file.None? {
      return Err(DownloadError);
    }
    var id := media.Put(file.value);
    var updated := WithRenditionHref(doc, name, url(id));
    archive.docs := archive.docs[guid := updated];
    return Ok(updated);
  }

  /** `import_media(guid, href)`: exactly `import_rendition` with the rendition `baseImage`. */
  method ImportMedia(archive: ArchiveCollection, media: MediaStorage, guid: string, href: string,
                     download: string -> Option<File>, url: MediaId -> string)
    returns (r: Result<Doc, Error>)
    requires media.Valid()
    modifies archive, media
    ensures media.Valid()
    ensures Imported(r, archive.docs, media.files, media.next) ==
            ImportSpec(old(archive.docs), old(media.files), old(media.next), guid, BASE_IMAGE, href, download, url)
  {
    r := ImportRendition(archive, media, guid, BASE_IMAGE, href, download, url);
  }
}

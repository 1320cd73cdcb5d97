# superdesk items: creation defaults, GUIDs, renditions and media cleanup

A Dafny model of the sequential logic inside `superdesk/items.py`, the module
that defines the content resources (ingest, archive, planning, archive media)
of the Superdesk news-content backend. The resources themselves are schema
handed to the Eve/Elastic framework; what is modelled here is the code that
runs around them:

- the creation-time defaults every item receives (`on_create_item`,
  `update_dates_for`): `firstcreated` and `versioncreated` set only when absent,
  a newsml GUID when the `guid` is missing or falsy, `_id` defaulted to the guid;
- GUID formatting (`generate_guid`): `tag:<domain>:<year>:<id>` or
  `urn:newsml:<domain>:<isotimestamp>:<id>`, chosen by a case-insensitive type,
  with a fresh uuid when no id is given, and no value for an unknown type;
- importing a remote file as a rendition of an existing archive-media item
  (`import_rendition`, `import_media`, `fetch_media_from_archive`);
- best-effort deletion of rendition files when an archive item is deleted
  (`ArchiveModel.on_delete`);
- creating an archive-media item from an upload (`ArchiveMediaModel.on_create`,
  `get_file_from_document`, `generate_renditions`, `delete_file_on_error`,
  `type_av`): stamping, the rendition table (original plus one resized copy per
  configured picture size), and deleting every stored file when building it fails.

Modules, one per concern:

| file | module | what it holds |
|---|---|---|
| `fields.dfy` | `Fields` | the field names the hooks read and write, and that they are distinct |
| `values.dfy` | `Values` | the dynamic field values of a document (a Python dict), truthiness, `get`, `setdefault`, the exceptions |
| `text.dfy` | `Text` | `str.lower()`, `'%d'`/`'%02d'` formatting, `split` |
| `storage.dfy` | `Storage` | the media storage (`get`/`put`/`delete`) and the archive collection, as classes |
| `items.dfy` | `Items` | `on_create_item`, `update_dates_for` |
| `guid.dfy` | `Guid` | `generate_guid` and decoders for both GUID formats |
| `import.dfy` | `Import` | `import_rendition`, `import_media`, `fetch_media_from_archive` |
| `archive.dfy` | `ArchiveModel` | `ArchiveModel.on_delete` |
| `archive_media.dfy` | `ArchiveMediaModel` | the upload path of `ArchiveMediaModel` |

The collaborators are abstract. The media storage is a map from id to file
whose `put` hands out a fresh id (`Storage.MediaStorage`); the image library is a
pair of functions returning dimensions or failing (`Imaging`); `SERVER_DOMAIN`,
`config.RENDITIONS['picture']` and `url_for_media` are `Settings`; the clock and
the uuid are a `Stamp` per document; the download of `store_file_from_url` is a
function parameter. Each imperative operation is a method proved against a
function (`UpdateDatesFor` against `WithDates`, `GenerateRenditions` against
`GenerateSpec`, `CreateFromUpload` against `UploadSpec`, `ImportRendition`
against `ImportSpec`), and the promised properties are lemmas about those
functions.

After a failed upload, `on_create` deletes the inserted files one by one
through `delete_file_on_error` (superdesk/items.py:406-410) and catches nothing
there: a `NotFound` from the storage ends the cleanup at that file, and the
files after it stay (`ArchiveMediaModel.DeleteAll`). Only `ArchiveModel.on_delete`
(superdesk/items.py:362) catches `NotFound` and goes on.

## Model

| member | source | states |
|---|---|---|
| `Items.WithDates` | superdesk/items.py:45-47 | both `firstcreated` and `versioncreated` are present afterwards; every field already present keeps its value; only those two fields can be added, and they get the current time |
| `Items.UpdateDatesFor` | superdesk/items.py:45-47 | the loop of `setdefault` over the two date fields leaves exactly `WithDates` of the document |
| `Items.CreateItemSetsDates` | superdesk/items.py:34-47 | after `on_create_item` each date field is present, keeps a pre-existing value, and is `utcnow()` when it was absent |
| `Items.CreateItemGuid` | superdesk/items.py:39-40 | a missing or falsy guid is replaced by the newsml GUID of the stamp, a truthy guid is kept, and the guid is truthy afterwards |
| `Items.CreateItemId` | superdesk/items.py:42 | `_id` is present afterwards; a pre-existing `_id` is kept, an absent one becomes the final guid |
| `Items.CreateItemKeepsOtherFields` | superdesk/items.py:34-47 | no field other than the dates, `guid` and `_id` is added, removed or changed |
| `Items.CreateItemDefaultsFixed` | superdesk/items.py:34-47 | a document that already has both dates, a truthy guid and an `_id` comes out of `on_create_item` unchanged |
| `Items.CreateItemDefaultsIdempotent` | superdesk/items.py:34-47 | applying the creation defaults a second time, at any later time, changes nothing |
| `Items.CreateItem` | superdesk/items.py:36-42 | one turn of the `on_create_item` loop yields `CreateItemDefaults` of the document |
| `Items.OnCreateItem` | superdesk/items.py:34-42 | every document of the list is replaced in place by its creation defaults, each with its own clock and uuid reading |
| `Guid.Identifier` | superdesk/items.py:55-56 | the identifier is the `id` hint when given and non-empty, the fresh uuid otherwise |
| `Guid.GenerateGuidShape` | superdesk/items.py:50-64 | for `Guid.GenerateGuid`, the model of `generate_guid`: a value exactly when the lowered type is `tag` or `newsml`; it starts with `tag:` or `urn:newsml:` respectively and ends with `:` and the identifier; None for any other type |
| `Guid.GenerateTagGuid` | superdesk/items.py:53-61 | `generate_guid(type='tag')` is `"tag:" + domain + ":" + year + ":" + uuid` |
| `Guid.GenerateNewsmlGuid` | superdesk/items.py:52-63 | `generate_guid(type='newsml')` is `"urn:newsml:" + domain + ":" + isoformat + ":" + uuid` |
| `Guid.GenerateGuidIgnoresCase` | superdesk/items.py:60-62 | the upper-case and lower-case spellings of a type give the same result as the type itself |
| `Guid.GuidFormatsDisjoint` | superdesk/items.py:52-53 | no tag GUID equals a newsml GUID |
| `Guid.TagGuidRoundTrip` | superdesk/items.py:53 | a tag GUID whose domain has no colon decodes back to its domain, year and identifier |
| `Guid.NewsmlGuidRoundTrip` | superdesk/items.py:52 | a newsml GUID whose domain has no colon decodes back to its domain, ISO timestamp and identifier |
| `Guid.IsoFormatLength` | superdesk/items.py:63 | the `isoformat()` timestamp of a valid datetime has 19 characters, or 26 when it has microseconds |
| `Guid.TagYearHasFourDigits` | superdesk/items.py:61 | from year 1000 on the year of a tag GUID is four digits |
| `Import.FetchMediaFromArchive` | superdesk/items.py:112-118 | the item is returned exactly when one with that id exists and is non-empty; otherwise the "No document found" error |
| `Import.CheckRendition` | superdesk/items.py:100-102 | the rendition-name test passes exactly when the item has a `renditions` dict that already holds the name |
| `Import.ImportErrorChangesNothing` | superdesk/items.py:99-109 | an import that fails leaves the archive and the media storage as they were |
| `Import.ImportMissingDocument` | superdesk/items.py:99-118 | importing into a missing item raises the not-found error and stores nothing |
| `Import.ImportUndeclaredRendition` | superdesk/items.py:99-102 | importing a rendition name the item does not declare raises "Invalid rendition name" and stores nothing |
| `Import.ImportChangesOnlyHref` | superdesk/items.py:104-109 | a successful import stores the download under a fresh id and changes only `renditions[name].href` of that one item, to the URL of the new file |
| `Import.ImportRendition` | superdesk/items.py:91-109 | the result and the new archive and storage are those of `ImportSpec` on the old ones |
| `Import.ImportMedia` | superdesk/items.py:80-88 | exactly `import_rendition` with the rendition name `baseImage` |
| `ArchiveModel.OnDelete` | superdesk/items.py:355-363 | with no item or no truthy renditions nothing is deleted; otherwise, when every rendition is a dict, exactly the files their `media` keys reference are deleted, missing keys and missing files being skipped; no other file is touched |
| `ArchiveMediaModel.TypeAvValues` | superdesk/items.py:367 | for `ArchiveMediaModel.TypeAv` (`type_av.get`): image maps to picture, audio to audio, video to video, any other media type to None |
| `ArchiveMediaModel.NormalizeExtension` | superdesk/items.py:441 | the extension is the lowered subtype when it is jpeg, gif, tiff or png, and png otherwise |
| `ArchiveMediaModel.NormalizeExtensionIdempotent` | superdesk/items.py:440-441 | normalising an already normalised extension gives it back |
| `ArchiveMediaModel.FileTypeOfContentType` | superdesk/items.py:395 | the file type of a content type `major/minor` is `major`, whatever follows the slash |
| `ArchiveMediaModel.Extension` | superdesk/items.py:440-441 | IndexError exactly when the content type has no `/`; otherwise the normalised second field, which is one of the four allowed extensions |
| `ArchiveMediaModel.NonImageRenditions` | superdesk/items.py:429-433 | a non-image upload gets only `original`, with href, media and mimetype and no size, and no file is stored |
| `ArchiveMediaModel.ImageRenditions` | superdesk/items.py:435-451 | an image whose sizes are all produced gets `original` with its native width and height plus one entry per configured size, stored under the next fresh ids in configuration order, with mimetype `image/<ext>` and the resized dimensions |
| `ArchiveMediaModel.ImageStoredFiles` | superdesk/items.py:442-448 | one file is stored per size produced before the first failing resize, under consecutive fresh ids; the result is a table exactly when none fails |
| `ArchiveMediaModel.ResizeAll` | superdesk/items.py:442-451 | the loop over the sizes appends each stored id to `inserted` in order and records its entry, stopping at the first failing resize |
| `ArchiveMediaModel.GenerateRenditions` | superdesk/items.py:427-451 | the table (or error), the grown `inserted` and the new storage are those of `GenerateSpec` |
| `ArchiveMediaModel.FileFromDocumentCases` | superdesk/items.py:413-419 | a truthy `media_fetched` is the file and is removed from the document; otherwise the file is read from storage by `media`, KeyError when `media` is absent |
| `ArchiveMediaModel.GetFileFromDocument` | superdesk/items.py:413-419 | the file and document returned are those of `FileFromDocument` over the storage |
| `ArchiveMediaModel.DeleteFileOnError` | superdesk/items.py:421-425 | with the import flag nothing is deleted; otherwise the file is deleted, NotFound when it was not stored |
| `ArchiveMediaModel.DeleteFileOnErrorAsWritten` | superdesk/items.py:421-425 | as written: KeyError and no deletion when the document has no `_import` key |
| `ArchiveMediaModel.Cleanup` | superdesk/items.py:406-410 | the except branch deletes the inserted ids in order and ends in `abort(500)`, as `CleanupSpec` states |
| `ArchiveMediaModel.CleanupAsWritten` | superdesk/items.py:406-410 | the same branch with `delete_file_on_error` as written |
| `ArchiveMediaModel.CleanupDeletesInserted` | superdesk/items.py:406-410 | without the import flag, cleanup removes exactly the inserted files and aborts with 500 |
| `ArchiveMediaModel.CleanupKeepsImported` | superdesk/items.py:421-424 | with the import flag, cleanup deletes nothing and aborts with 500 |
| `ArchiveMediaModel.MissingImportKeyLeaksFiles` | superdesk/items.py:423 | as written, a document without `_import` makes cleanup raise KeyError and delete no file, where the intended cleanup deletes them all |
| `ArchiveMediaModel.StampedDocFields` | superdesk/items.py:398-402 | before the renditions: the tag GUID, the `type_av` type, version 1 and `versioncreated` now are set, `firstcreated` defaulted, nothing else changed |
| `ArchiveMediaModel.UploadWithoutMedia` | superdesk/items.py:393-394 | a document without `media` fails with KeyError('media') even when it carries a `media_fetched` file, and stores and deletes nothing |
| `ArchiveMediaModel.CleanupOnlyDeletes` | superdesk/items.py:406-410 | the cleanup branch never adds a file to the storage |
| `ArchiveMediaModel.CreateFromUpload` | superdesk/items.py:392-410 | one turn of the `on_create` loop leaves the document, outcome and storage of `UploadSpec` |
| `ArchiveMediaModel.UploadOutcome` | superdesk/items.py:392-411 | an upload succeeds exactly when its file is found and its renditions are built; one that fails before that stores and deletes nothing |
| `ArchiveMediaModel.UploadSuccessFields` | superdesk/items.py:394-405 | a created upload carries the tag GUID, version 1, the new `versioncreated`, its type, the file's content type and metadata, the generated renditions, no truthy `media_fetched`, and a kept `firstcreated` |
| `ArchiveMediaModel.UploadFailureRollsBack` | superdesk/items.py:394-410 | without the import flag, a failed upload whose own file is in storage leaves the storage as before minus that file, every resized copy deleted, and aborts with 500 |
| `ArchiveMediaModel.UploadFailureKeepsCopiesOfUnstoredUpload` | superdesk/items.py:406-410 | without the import flag, a failed upload whose own file came in `media_fetched` and is not in storage makes the cleanup raise NotFound at its first id, `doc['media']`, and leaves every resized copy stored for it in storage |
| `ArchiveMediaModel.UploadFailureKeepsImported` | superdesk/items.py:406-410 | with the import flag a failed upload keeps every stored file and aborts with 500 |
| `ArchiveMediaModel.UploadPrefixStops` | superdesk/items.py:392-410 | once one document's creation raises, the later documents are left untouched |
| `ArchiveMediaModel.UploadStoresFreshIds` | superdesk/items.py:392-410 | one creation only adds files under the ids it hands out, those between the old and the new next id; every other file it leaves was there before |
| `ArchiveMediaModel.UploadPrefixStoresFreshIds` | superdesk/items.py:392-411 | the same over the whole list: a file left by `on_create` that was not there before has an id handed out during the loop, so no upload reuses the id of a file already stored |
| `ArchiveMediaModel.OnCreate` | superdesk/items.py:390-411 | the documents, outcome and storage after `on_create` are those of the loop `UploadPrefix` over the list |

## Findings

| source | as written | input that shows it | evidently intended | confidence | as-written member | corrected member |
|---|---|---|---|---|---|---|
| superdesk/items.py:423 | `delete_file_on_error` reads the flag as `doc['_import']` | an ordinary upload (no `_import` key, which the archive-media schema does not define) whose resize raises | read the flag as `doc.get('_import')`, so an ordinary upload's files are deleted and the request ends in a 500 | medium, not executed | `ArchiveMediaModel.MissingImportKeyLeaksFiles` | `ArchiveMediaModel.CleanupDeletesInserted` |

The rest of the model (`Cleanup`, `UploadSpec`, `OnCreate`) uses the corrected
reading; `DeleteFileOnErrorAsWritten` and `CleanupAsWritten` keep the code as
written beside it.

## Left out

- Schema dictionaries, facets, `item_url`, `extra_response_fields`: framework configuration with no behaviour.
- The Flask route `import_media_into_archive` and its `Response`: HTTP plumbing.
- `push_notification` and the `on_create_*`/`on_update_*`/`on_delete_*` emitters, `init_app`, and the `on_update` hooks, which only emit notifications.
- Logging and `print`.
- The pixel work of `Image.open` and `resize_image`, and `original.seek(0)`: the image library is abstract and only returns dimensions or fails.
- The network download of `store_file_from_url` and the storage backend: a function parameter, an id-to-file map and an abstract `url(id)`.
- `datetime.today()`, `utcnow()` and `uuid4()`: read from a `Stamp` per document. The source reads `utcnow()` once per defaulted field and once more for `versioncreated`; the model uses one reading for all of them.
- Items.OnCreateItem, ArchiveMediaModel.OnCreate: dicts are modelled as values, so aliasing between documents (the same dict twice in the list) is not captured.
- Import.ImportRendition: the framework `update` is modelled as a merge of `renditions[name].href` into the stored item; Eve's own patch semantics and its `trigger_events` are not part of this model.
- Import.CheckRendition: a `renditions` field that is not a dict raises TypeError; Python's `in` on a list or string value would not raise.
- ArchiveMediaModel.CreateFromUpload: on the storage path a `media` value that is not a media id finds no file and fails with AttributeError at `content_type`, as a lookup of an unknown id does; with a truthy `media_fetched`, such a value fails with TypeError in the model, where Python would go on and pass it to `url_for_media`.
- ArchiveModel.OnDelete: rendition names are walked as a set, so when a rendition that is not a dict stops the walk with TypeError the contract says only that no other file was touched, not which referenced files were already deleted; a `media` value that is not a media id is skipped as a missing file would be.
- `str.lower()` folds ASCII letters only; every string it is compared with (`tag`, `newsml`, `jpeg`, `gif`, `tiff`, `png`) is ASCII.
- Widths and heights are unbounded integers; the image library's own limits are not modelled.
- `IngestModel`, `PlanningModel` and `ArchiveModel.on_create` only call `on_create_item` and a notification, so they are covered by `Items.OnCreateItem`.

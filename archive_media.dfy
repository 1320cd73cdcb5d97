/**
 * `ArchiveMediaModel`: creating an archive item from an uploaded file.
 *
 * For each uploaded document, `on_create` finds the file, stamps dates, a tag
 * GUID, the item type and version, builds the renditions table (for images:
 * the original plus one resized copy per configured size, each stored as a
 * new file), and records the mimetype and file metadata. If building the
 * renditions fails, every file stored for the document is deleted (unless it
 * comes from the import-from-storage flow) and the request is aborted with
 * status 500.
 *
 * The image library is the parameter `imaging`; the server domain, the
 * configured picture renditions and the URL of a stored file are `settings`.
 */
module ArchiveMediaModel {
  import opened Values
  import opened Text
  import opened Guid
  import opened Items
  import opened Storage
  import opened Fields

  const ORIGINAL := "original"
  const IMAGE := "image"

  /** The extensions a resized copy may keep; anything else is written as png. */
  const ALLOWED_EXTENSIONS := ["jpeg", "gif", "tiff", "png"]

  /** `type_av`: the item type for each media type of an upload. */
  const TYPE_AV: map<string, string> := map["image" := "picture", "audio" := "audio", "video" := "video"]

  datatype Size = Size(width: int, height: int)

  /** What `resize_image` returns: the resized bytes and their dimensions. */
  datatype Resized = Resized(content: seq<bv8>, width: int, height: int)

  /** One entry of `config.RENDITIONS['picture']`, in the dict's order. */
  datatype SizeConfig = SizeConfig(name: string, size: Size)

  /**
   * The image library: `Image.open(f).size`, and `resize_image(f, ext, size)`.
   * None stands for the call raising.
   */
  datatype Imaging = Imaging(open: File -> Option<(int, int)>,
                             resize: (File, string, Size) -> Option<Resized>)

  /** `SERVER_DOMAIN`, `config.RENDITIONS['picture']` and `url_for_media`. */
  datatype Settings = Settings(domain: string, pictureRenditions: seq<SizeConfig>,
                               url: MediaId -> string)

  /** `self.type_av.get(file_type)`. */
  function TypeAv(fileType: string): Value {
    if fileType in TYPE_AV then Str(TYPE_AV[fileType]) else Null
  }

  /** Images become pictures, audio and video keep their name, any other type has none. */
  lemma TypeAvValues(fileType: string)
    ensures TypeAv("image") == Str("picture")
    ensures TypeAv("audio") == Str("audio")
    ensures TypeAv("video") == Str("video")
    ensures fileType != "image" && fileType != "audio" && fileType != "video" ==> TypeAv(fileType) == Null
  {
  }

  /** `content_type.split('/')[0]`. */
  function FileType(contentType: string): string {
    FirstField(contentType, '/')
  }

  /** The file type of `major/minor` is `major`: `image/jpeg` is an image. */
  lemma FileTypeOfContentType(major: string, minor: string)
    requires '/' !in major
    ensures FileType(major + "/" + minor) == major
  {
    SplitFirstAt(major, '/', minor);
  }

  /** The lowered subtype when it is an allowed extension, else `png`. */
  function NormalizeExtension(subtype: string): (ext: string)
    ensures ext in ALLOWED_EXTENSIONS
    ensures Lower(subtype) in ALLOWED_EXTENSIONS ==> ext == Lower(subtype)
    ensures Lower(subtype) !in ALLOWED_EXTENSIONS ==> ext == "png"
  {
    var e := Lower(subtype);
    if e in ALLOWED_EXTENSIONS then e else "png"
  }

  /** Normalising an extension that is already normalised leaves it as it is. */
  lemma NormalizeExtensionIdempotent(subtype: string)
    ensures NormalizeExtension(NormalizeExtension(subtype)) == NormalizeExtension(subtype)
  {
    var ext := NormalizeExtension(subtype);
    assert Lower(ext) == ext by {
      assert forall i :: 0 <= i < |ext| ==> 'a' <= ext[i] <= 'z';
      assert forall i :: 0 <= i < |ext| ==> Lower(ext)[i] == ext[i];
    }
  }

  /** The extension of the resized copies; IndexError when the content type has no '/'. */
  function Extension(contentType: string): (r: Result<string, Error>)
    ensures r.Err? <==> '/' !in contentType
    ensures r.Err? ==> r.error == IndexError
    ensures r.Ok? ==> r.value in ALLOWED_EXTENSIONS
    ensures r.Ok? ==> r.value == NormalizeExtension(SecondField(contentType, '/').value)
  {
    match SecondField(contentType, '/')
    case None => Err(IndexError)
    case Some(subtype) => Ok(NormalizeExtension(subtype))
  }

  /** The `original` rendition before its dimensions are known. */
  function OriginalEntry(mediaId: MediaId, contentType: string, url: MediaId -> string): map<string, Value> {
    map[HREF := Str(url(mediaId)), MEDIA := MediaRef(mediaId), MIMETYPE := Str(contentType)]
  }

  function WithSize(entry: map<string, Value>, width: int, height: int): map<string, Value> {
    entry[WIDTH := Int(width)][HEIGHT := Int(height)]
  }

  /** The rendition recorded for a resized copy stored under `id`. */
  function SizedEntry(id: MediaId, ext: string, resized: Resized, url: MediaId -> string): map<string, Value> {
    WithSize(map[HREF := Str(url(id)), MEDIA := MediaRef(id), MIMETYPE := Str("image/" + ext)],
             resized.width, resized.height)
  }

  /** The file stored for a resized copy: `FileStorage(stream=resized, content_type='image/' + ext)`. */
  function ResizedFile(ext: string, resized: Resized): File {
    File("image/" + ext, resized.content, Null)
  }

  /** The index of the first configured size the image library fails to produce, or the count of sizes. */
  function FirstFailure(imaging: Imaging, original: File, ext: string, sizes: seq<SizeConfig>): (k: nat)
    ensures k <= |sizes|
    ensures forall j :: 0 <= j < k ==> imaging.resize(original, ext, sizes[j].size).Some?
    ensures k < |sizes| ==> imaging.resize(original, ext, sizes[k].size).None?
    decreases |sizes|
  {
    if sizes == [] then 0
    else if imaging.resize(original, ext, sizes[0].size).None? then 0
    else 1 + FirstFailure(imaging, original, ext, sizes[1..])
  }

  /** The ids `start, start + 1, …` that the next `n` stores hand out. */
  function Ids(start: MediaId, n: nat): (ids: seq<MediaId>)
    ensures |ids| == n
    ensures forall j :: 0 <= j < n ==> ids[j] == start + j
  {
    if n == 0 then [] else Ids(start, n - 1) + [start + n - 1]
  }

  /** The `(name, rendition)` pairs of the first `n` configured sizes, stored from id `start` on. */
  function SizedRenditions(imaging: Imaging, original: File, ext: string, sizes: seq<SizeConfig>,
                           start: MediaId, url: MediaId -> string, n: nat): (pairs: seq<(string, Value)>)
    requires n <= FirstFailure(imaging, original, ext, sizes)
    ensures |pairs| == n
  {
    if n == 0 then []
    else
      SizedRenditions(imaging, original, ext, sizes, start, url, n - 1) +
      [(sizes[n - 1].name,
        Dict(SizedEntry(start + n - 1, ext, imaging.resize(original, ext, sizes[n - 1].size).value, url)))]
  }

  /** The `j`-th pair is the `j`-th configured size, stored under id `start + j`. */
  lemma {:induction false} SizedRenditionsAt(imaging: Imaging, original: File, ext: string, sizes: seq<SizeConfig>,
                                             start: MediaId, url: MediaId -> string, n: nat)
    requires n <= FirstFailure(imaging, original, ext, sizes)
    ensures var pairs := SizedRenditions(imaging, original, ext, sizes, start, url, n);
      forall j :: 0 <= j < n ==>
        pairs[j] == (sizes[j].name,
                     Dict(SizedEntry(start + j, ext, imaging.resize(original, ext, sizes[j].size).value, url)))
  {
    if n > 0 {
      SizedRenditionsAt(imaging, original, ext, sizes, start, url, n - 1);
    }
  }

  /** `table[name] = value` for each pair in turn. */
  function Insert(table: map<string, Value>, pairs: seq<(string, Value)>): map<string, Value>
    decreases |pairs|
  {
    if pairs == [] then table
    else Insert(table, pairs[..|pairs| - 1])[pairs[|pairs| - 1].0 := pairs[|pairs| - 1].1]
  }

  function PairKeys(pairs: seq<(string, Value)>): set<string> {
    set j | 0 <= j < |pairs| :: pairs[j].0
  }

  predicate DistinctKeys(pairs: seq<(string, Value)>) {
    forall i, j :: 0 <= i < j < |pairs| ==> pairs[i].0 != pairs[j].0
  }

  lemma PairKeysSnoc(pairs: seq<(string, Value)>, p: (string, Value))
    ensures PairKeys(pairs + [p]) == PairKeys(pairs) + {p.0}
  {
    var all := pairs + [p];
    forall x | x in PairKeys(all) ensures x in PairKeys(pairs) + {p.0} {
      var j :| 0 <= j < |all| && all[j].0 == x;
      if j < |pairs| { assert pairs[j] == all[j]; }
    }
    forall x | x in PairKeys(pairs) ensures x in PairKeys(all) {
      var j :| 0 <= j < |pairs| && pairs[j].0 == x;
      assert all[j] == pairs[j];
    }
    assert all[|pairs|] == p;
  }

  /** Dropping the last of pairs with distinct names leaves distinct names, none of them the last one's. */
  lemma DistinctKeysInit(pairs: seq<(string, Value)>)
    requires pairs != [] && DistinctKeys(pairs)
    ensures DistinctKeys(pairs[..|pairs| - 1])
    ensures pairs[|pairs| - 1].0 !in PairKeys(pairs[..|pairs| - 1])
  {
    var init := pairs[..|pairs| - 1];
    forall x | x in PairKeys(init) ensures x != pairs[|pairs| - 1].0 {
      var j :| 0 <= j < |init| && init[j].0 == x;
      assert init[j] == pairs[j];
    }
  }

  /** Inserting pairs with distinct names: each is in the table under its name, the rest of the table is kept. */
  lemma {:induction false} InsertDistinct(table: map<string, Value>, pairs: seq<(string, Value)>)
    requires DistinctKeys(pairs)
    ensures Insert(table, pairs).Keys == table.Keys + PairKeys(pairs)
    ensures forall k :: k in table && k !in PairKeys(pairs) ==> Insert(table, pairs)[k] == table[k]
    ensures forall j :: 0 <= j < |pairs| ==> Insert(table, pairs)[pairs[j].0] == pairs[j].1
    decreases |pairs|
  {
    if pairs != [] {
      var init := pairs[..|pairs| - 1];
      var last := pairs[|pairs| - 1];
      assert pairs == init + [last];
      DistinctKeysInit(pairs);
      InsertDistinct(table, init);
      PairKeysSnoc(init, last);
      var before := Insert(table, init);
      assert Insert(table, pairs) == before[last.0 := last.1];
      forall j | 0 <= j < |pairs| ensures Insert(table, pairs)[pairs[j].0] == pairs[j].1 {
        if j < |init| {
          assert pairs[j] == init[j];
          assert init[j].0 in PairKeys(init);
        }
      }
    }
  }

  /** The files stored for the first `n` configured sizes, under the ids handed out from `start`. */
  function StoredFiles(imaging: Imaging, original: File, ext: string, sizes: seq<SizeConfig>,
                       start: MediaId, n: nat): (stored: map<MediaId, File>)
    requires n <= FirstFailure(imaging, original, ext, sizes)
    ensures forall id :: id in stored <==> start <= id < start + n
  {
    if n == 0 then map[]
    else
      StoredFiles(imaging, original, ext, sizes, start, n - 1)
        [start + n - 1 := ResizedFile(ext, imaging.resize(original, ext, sizes[n - 1].size).value)]
  }

  /**
   * What `generate_renditions` leaves: its result (or the exception it raises),
   * the files it stored, and how many there are.
   */
  datatype Generated = Generated(result: Result<map<string, Value>, Error>,
                                 stored: map<MediaId, File>, count: nat)

  /** `generate_renditions(original, media_id, inserted, file_type)` when the storage's next id is `start`. */
  function GenerateSpec(original: File, mediaId: MediaId, fileType: string, settings: Settings,
                        imaging: Imaging, start: MediaId): Generated
  {
    var entry := OriginalEntry(mediaId, original.contentType, settings.url);
    if fileType != IMAGE then Generated(Ok(map[ORIGINAL := Dict(entry)]), map[], 0)
    else match imaging.open(original)
      case None => Generated(Err(ImageError), map[], 0)
      case Some(dims) =>
        match Extension(original.contentType)
        case Err(e) => Generated(Err(e), map[], 0)
        case Ok(ext) =>
          var sizes := settings.pictureRenditions;
          var k := FirstFailure(imaging, original, ext, sizes);
          var stored := StoredFiles(imaging, original, ext, sizes, start, k);
          if k < |sizes| then Generated(Err(ResizeError), stored, k)
          else
            var base := map[ORIGINAL := Dict(WithSize(entry, dims.0, dims.1))];
            Generated(Ok(Insert(base, SizedRenditions(imaging, original, ext, sizes, start, settings.url, k))), stored, k)
  }

  /** Configuration entries are the items of a dict: their names are distinct. */
  predicate DistinctNames(sizes: seq<SizeConfig>) {
    forall i, j :: 0 <= i < j < |sizes| ==> sizes[i].name != sizes[j].name
  }

  function Names(sizes: seq<SizeConfig>): set<string> {
    set j | 0 <= j < |sizes| :: sizes[j].name
  }

  /** A non-image upload gets the one rendition `original` (href, media, mimetype; no size) and nothing is stored. */
  lemma NonImageRenditions(original: File, mediaId: MediaId, fileType: string, settings: Settings,
                           imaging: Imaging, start: MediaId)
    requires fileType != IMAGE
    ensures var g := GenerateSpec(original, mediaId, fileType, settings, imaging, start);
      && g.result == Ok(map[ORIGINAL := Dict(map[HREF := Str(settings.url(mediaId)),
                                                  MEDIA := MediaRef(mediaId),
                                                  MIMETYPE := Str(original.contentType)])])
      && g.stored == map[] && g.count == 0
  {
  }

  /**
   * An image whose every configured size is produced gets `original` with its
   * native size, and one rendition per configured size, under the next fresh
   * ids in configuration order, with mimetype `image/<ext>`.
   */
  lemma ImageRenditions(original: File, mediaId: MediaId, settings: Settings, imaging: Imaging, start: MediaId)
    requires imaging.open(original).Some? && '/' in original.contentType
    requires FirstFailure(imaging, original, Extension(original.contentType).value, settings.pictureRenditions)
             == |settings.pictureRenditions|
    requires DistinctNames(settings.pictureRenditions) && ORIGINAL !in Names(settings.pictureRenditions)
    ensures var g := GenerateSpec(original, mediaId, IMAGE, settings, imaging, start);
      var sizes := settings.pictureRenditions;
      var ext := Extension(original.contentType).value;
      var dims := imaging.open(original).value;
      && g.result.Ok? && g.count == |sizes|
      && g.result.value.Keys == {ORIGINAL} + Names(sizes)
      && g.result.value[ORIGINAL] == Dict(OriginalEntry(mediaId, original.contentType, settings.url)
                                            [WIDTH := Int(dims.0)][HEIGHT := Int(dims.1)])
      && (forall j :: 0 <= j < |sizes| ==>
            var rz := imaging.resize(original, ext, sizes[j].size).value;
            g.result.value[sizes[j].name] ==
            Dict(map[HREF := Str(settings.url(start + j)), MEDIA := MediaRef(start + j),
                     MIMETYPE := Str("image/" + ext), WIDTH := Int(rz.width), HEIGHT := Int(rz.height)]))
  {
    var sizes := settings.pictureRenditions;
    var ext := Extension(original.contentType).value;
    var dims := imaging.open(original).value;
    var base := map[ORIGINAL := Dict(WithSize(OriginalEntry(mediaId, original.contentType, settings.url), dims.0, dims.1))];
    var table := Insert(base, SizedRenditions(imaging, original, ext, sizes, start, settings.url, |sizes|));
    assert GenerateSpec(original, mediaId, IMAGE, settings, imaging, start) ==
           Generated(Ok(table), StoredFiles(imaging, original, ext, sizes, start, |sizes|), |sizes|);
    SizedTable(base, imaging, original, ext, sizes, start, settings.url);
    assert table.Keys == {ORIGINAL} + Names(sizes);
    assert table[ORIGINAL] == base[ORIGINAL];
    forall j | 0 <= j < |sizes|
      ensures var rz := imaging.resize(original, ext, sizes[j].size).value;
        table[sizes[j].name] ==
        Dict(map[HREF := Str(settings.url(start + j)), MEDIA := MediaRef(start + j),
                 MIMETYPE := Str("image/" + ext), WIDTH := Int(rz.width), HEIGHT := Int(rz.height)])
    {
    }
  }

  /** The table of an image whose every size is produced: `base`, plus one entry per configured size. */
  lemma SizedTable(base: map<string, Value>, imaging: Imaging, original: File, ext: string,
                   sizes: seq<SizeConfig>, start: MediaId, url: MediaId -> string)
    requires FirstFailure(imaging, original, ext, sizes) == |sizes|
    requires DistinctNames(sizes)
    ensures var table := Insert(base, SizedRenditions(imaging, original, ext, sizes, start, url, |sizes|));
      && table.Keys == base.Keys + Names(sizes)
      && (forall k :: k in base && k !in Names(sizes) ==> table[k] == base[k])
      && (forall j :: 0 <= j < |sizes| ==>
            table[sizes[j].name] ==
            Dict(SizedEntry(start + j, ext, imaging.resize(original, ext, sizes[j].size).value, url)))
  {
    var pairs := SizedRenditions(imaging, original, ext, sizes, start, url, |sizes|);
    SizedRenditionsAt(imaging, original, ext, sizes, start, url, |sizes|);
    NamedPairs(pairs, sizes);
    InsertDistinct(base, pairs);
    forall j | 0 <= j < |sizes|
      ensures Insert(base, pairs)[sizes[j].name] == pairs[j].1
    {
      assert pairs[j].0 == sizes[j].name;
    }
  }

  /** Pairs named after the configured sizes, in order, have the sizes' names, and distinct ones when those are. */
  lemma NamedPairs(pairs: seq<(string, Value)>, sizes: seq<SizeConfig>)
    requires |pairs| == |sizes| && forall j :: 0 <= j < |sizes| ==> pairs[j].0 == sizes[j].name
    requires DistinctNames(sizes)
    ensures DistinctKeys(pairs) && PairKeys(pairs) == Names(sizes)
  {
    forall x | x in Names(sizes) ensures x in PairKeys(pairs) {
      var j :| 0 <= j < |sizes| && sizes[j].name == x;
      assert pairs[j].0 == x;
    }
  }

  /** The resized copies of an image are stored under the ids `start, start + 1, …`, one per configured size. */
  lemma ImageStoredFiles(original: File, mediaId: MediaId, settings: Settings, imaging: Imaging, start: MediaId)
    requires imaging.open(original).Some? && '/' in original.contentType
    ensures var g := GenerateSpec(original, mediaId, IMAGE, settings, imaging, start);
      var sizes := settings.pictureRenditions;
      var ext := Extension(original.contentType).value;
      var k := FirstFailure(imaging, original, ext, sizes);
      && g.count == k
      && (g.result.Ok? <==> k == |sizes|)
      && (forall id :: id in g.stored <==> start <= id < start + k)
      && (forall j :: 0 <= j < k ==>
            var rz := imaging.resize(original, ext, sizes[j].size).value;
            g.stored[start + j] == File("image/" + ext, rz.content, Null))
  {
    var sizes := settings.pictureRenditions;
    var ext := Extension(original.contentType).value;
    StoredFilesAt(imaging, original, ext, sizes, start, FirstFailure(imaging, original, ext, sizes));
  }

  lemma {:induction false} StoredFilesAt(imaging: Imaging, original: File, ext: string, sizes: seq<SizeConfig>,
                                         start: MediaId, n: nat)
    requires n <= FirstFailure(imaging, original, ext, sizes)
    ensures forall j :: 0 <= j < n ==>
              StoredFiles(imaging, original, ext, sizes, start, n)[start + j] ==
              ResizedFile(ext, imaging.resize(original, ext, sizes[j].size).value)
  {
    if n > 0 {
      StoredFilesAt(imaging, original, ext, sizes, start, n - 1);
    }
  }

  lemma StoredFilesStep(imaging: Imaging, original: File, ext: string, sizes: seq<SizeConfig>,
                         start: MediaId, i: nat)
    requires i < FirstFailure(imaging, original, ext, sizes)
    ensures StoredFiles(imaging, original, ext, sizes, start, i + 1) ==
            StoredFiles(imaging, original, ext, sizes, start, i)
              [start + i := ResizedFile(ext, imaging.resize(original, ext, sizes[i].size).value)]
  {
  }

  lemma SizedRenditionsStep(imaging: Imaging, original: File, ext: string, sizes: seq<SizeConfig>,
                            start: MediaId, url: MediaId -> string, i: nat)
    requires i < FirstFailure(imaging, original, ext, sizes)
    ensures SizedRenditions(imaging, original, ext, sizes, start, url, i + 1) ==
            SizedRenditions(imaging, original, ext, sizes, start, url, i) +
            [(sizes[i].name, Dict(SizedEntry(start + i, ext, imaging.resize(original, ext, sizes[i].size).value, url)))]
  {
  }

  lemma InsertSnoc(table: map<string, Value>, pairs: seq<(string, Value)>, p: (string, Value))
    ensures Insert(table, pairs + [p]) == Insert(table, pairs)[p.0 := p.1]
  {
    assert (pairs + [p])[..|pairs|] == pairs;
  }

  lemma UnionUpdate<K, V>(a: map<K, V>, b: map<K, V>, k: K, v: V)
    ensures (a + b)[k := v] == a + b[k := v]
  {
  }

  /** Appending the id of size `i` extends the inserted ids from their value after `i` sizes to the one after `i + 1`. */
  lemma InsertedStep(inserted: seq<MediaId>, start: MediaId, i: nat, insertedNow: seq<MediaId>, id: MediaId)
    requires insertedNow == inserted + Ids(start, i) && id == start + i
    ensures insertedNow + [id] == inserted + Ids(start, i + 1)
  {
    var before := Ids(start, i);
    assert Ids(start, i + 1) == before + [id];
    assert (inserted + before) + [id] == inserted + (before + [id]);
  }

  /** Storing size `i` under `start + i` takes the files from their value after `i` sizes to the one after `i + 1`. */
  lemma FilesStep(original: File, ext: string, sizes: seq<SizeConfig>, files: map<MediaId, File>,
                  imaging: Imaging, start: MediaId, i: nat, filesNow: map<MediaId, File>, id: MediaId)
    requires i < FirstFailure(imaging, original, ext, sizes) && id == start + i
    requires filesNow == files + StoredFiles(imaging, original, ext, sizes, start, i)
    ensures filesNow[id := ResizedFile(ext, imaging.resize(original, ext, sizes[i].size).value)] ==
            files + StoredFiles(imaging, original, ext, sizes, start, i + 1)
  {
    var f := ResizedFile(ext, imaging.resize(original, ext, sizes[i].size).value);
    StoredFilesStep(imaging, original, ext, sizes, start, i);
    UnionUpdate(files, StoredFiles(imaging, original, ext, sizes, start, i), id, f);
  }

  /** Recording size `i` under `start + i` takes the table from its value after `i` sizes to the one after `i + 1`. */
  lemma TableStep(original: File, ext: string, sizes: seq<SizeConfig>, table: map<string, Value>,
                  imaging: Imaging, url: MediaId -> string, start: MediaId, i: nat,
                  tableNow: map<string, Value>, id: MediaId)
    requires i < FirstFailure(imaging, original, ext, sizes) && id == start + i
    requires tableNow == Insert(table, SizedRenditions(imaging, original, ext, sizes, start, url, i))
    ensures tableNow[sizes[i].name := Dict(SizedEntry(id, ext, imaging.resize(original, ext, sizes[i].size).value, url))] ==
            Insert(table, SizedRenditions(imaging, original, ext, sizes, start, url, i + 1))
  {
    var entry := (sizes[i].name, Dict(SizedEntry(id, ext, imaging.resize(original, ext, sizes[i].size).value, url)));
    SizedRenditionsStep(imaging, original, ext, sizes, start, url, i);
    InsertSnoc(table, SizedRenditions(imaging, original, ext, sizes, start, url, i), entry);
  }

  /**
   * The loop of `generate_renditions` over the configured sizes: resize, store,
   * record the id in `inserted` and the rendition in `table`; a failing resize
   * raises and ends it.
   */
  method ResizeAll(original: File, ext: string, sizes: seq<SizeConfig>, table: map<string, Value>,
                   inserted: seq<MediaId>, media: MediaStorage, imaging: Imaging, url: MediaId -> string)
    returns (r: Result<map<string, Value>, Error>, insertedAfter: seq<MediaId>)
    requires media.Valid()
    modifies media
    ensures media.Valid()
    ensures var k := FirstFailure(imaging, original, ext, sizes);
      && r == (if k < |sizes| then Err(ResizeError)
               else Ok(Insert(table, SizedRenditions(imaging, original, ext, sizes, old(media.next), url, k))))
      && insertedAfter == inserted + Ids(old(media.next), k)
      && media.files == old(media.files) + StoredFiles(imaging, original, ext, sizes, old(media.next), k)
      && media.next == old(media.next) + k
  {
    ghost var files, start := media.files, media.next;
    var result := table;
    insertedAfter := inserted;
    assert Ids(start, 0) == [];
    for i := 0 to |sizes|
      invariant i <= FirstFailure(imaging, original, ext, sizes)
      invariant media.Valid() && media.next == start + i
      invariant media.files == files + StoredFiles(imaging, original, ext, sizes, start, i)
      invariant insertedAfter == inserted + Ids(start, i)
      invariant result == Insert(table, SizedRenditions(imaging, original, ext, sizes, start, url, i))
    {
      var resized := imaging.resize(original, ext, sizes[i].size);
      if resized.None? {
        assert i == FirstFailure(imaging, original, ext, sizes);
        return Err(ResizeError), insertedAfter;
      }
      ghost var filesNow := media.files;
      var id := media.Put(ResizedFile(ext, resized.value));
      FilesStep(original, ext, sizes, files, imaging, start, i, filesNow, id);
      InsertedStep(inserted, start, i, insertedAfter, id);
      TableStep(original, ext, sizes, table, imaging, url, start, i, result, id);
      insertedAfter := insertedAfter + [id];
      result := result[sizes[i].name := Dict(SizedEntry(id, ext, resized.value, url))];
    }
    assert FirstFailure(imaging, original, ext, sizes) == |sizes|;
    return Ok(result), insertedAfter;
  }

  /**
   * `generate_renditions`: the renditions table (or the exception), with
   * `inserted` grown by the id of every file stored on the way, in order.
   */
  method GenerateRenditions(original: File, mediaId: MediaId, inserted: seq<MediaId>, fileType: string,
                            media: MediaStorage, settings: Settings, imaging: Imaging)
    returns (renditions: Result<map<string, Value>, Error>, insertedAfter: seq<MediaId>)
    requires media.Valid()
    modifies media
    ensures media.Valid()
    ensures var g := GenerateSpec(original, mediaId, fileType, settings, imaging, old(media.next));
      && renditions == g.result
      && insertedAfter == inserted + Ids(old(media.next), g.count)
      && media.files == old(media.files) + g.stored
      && media.next == old(media.next) + g.count
  {
    var rend := OriginalEntry(mediaId, original.contentType, settings.url);
    insertedAfter := inserted;
    assert inserted + Ids(media.next, 0) == inserted;
    assert media.files + map[] == media.files;
    if fileType != IMAGE {
      return Ok(map[ORIGINAL := Dict(rend)]), insertedAfter;
    }
    var dims := imaging.open(original);
    if dims.None? {
      return Err(ImageError), insertedAfter;
    }
    // `rend` is the dict held under `original`, so its size shows there too.
    rend := WithSize(rend, dims.value.0, dims.value.1);
    var ext := Extension(original.contentType);
    if ext.Err? {
      return Err(ext.error), insertedAfter;
    }
    renditions, insertedAfter := ResizeAll(original, ext.value, settings.pictureRenditions,
                                           map[ORIGINAL := Dict(rend)], inserted, media, imaging, settings.url);
  }

  /** What `get_file_from_document` returns, with the document it leaves. */
  datatype Fetched = Fetched(file: Result<File, Error>, doc: Doc)

  /**
   * `get_file_from_document(doc)`: a truthy `media_fetched` is used and removed
   * from the document; otherwise the file is read from storage by `doc['media']`.
   * A missing `media` raises KeyError; a missing file (None) or a `media_fetched`
   * that is not a file fails at its `content_type`.
   */
  function FileFromDocument(doc: Doc, files: map<MediaId, File>): Fetched
  {
    var fetched := Get(doc, MEDIA_FETCHED);
    if !Truthy(fetched) then
      if MEDIA !in doc then Fetched(Err(KeyError(MEDIA)), doc)
      else if !doc[MEDIA].MediaRef? || doc[MEDIA].id !in files then Fetched(Err(AttributeError), doc)
      else Fetched(Ok(files[doc[MEDIA].id]), doc)
    else
      Fetched(if fetched.Blob? then Ok(fetched.file) else Err(AttributeError), doc - {MEDIA_FETCHED})
  }

  /** The cases of `get_file_from_document`, stated on the fetched file and the document left. */
  lemma FileFromDocumentCases(doc: Doc, files: map<MediaId, File>)
    ensures Truthy(Get(doc, MEDIA_FETCHED)) ==>
              && FileFromDocument(doc, files).doc == doc - {MEDIA_FETCHED}
              && (FileFromDocument(doc, files).file.Ok? <==> doc[MEDIA_FETCHED].Blob?)
              && (FileFromDocument(doc, files).file.Ok? ==> FileFromDocument(doc, files).file.value == doc[MEDIA_FETCHED].file)
    ensures !Truthy(Get(doc, MEDIA_FETCHED)) ==>
              && FileFromDocument(doc, files).doc == doc
              && (FileFromDocument(doc, files).file.Ok? <==> MEDIA in doc && doc[MEDIA].MediaRef? && doc[MEDIA].id in files)
              && (FileFromDocument(doc, files).file.Ok? ==> FileFromDocument(doc, files).file.value == files[doc[MEDIA].id])
              && (MEDIA !in doc ==> FileFromDocument(doc, files).file == Err(KeyError(MEDIA)))
  {
  }

  /** `get_file_from_document(doc)`, reading the media storage. */
  method GetFileFromDocument(doc: Doc, media: MediaStorage) returns (file: Result<File, Error>, updated: Doc)
    ensures Fetched(file, updated) == FileFromDocument(doc, media.files)
  {
    var fetched := Get(doc, MEDIA_FETCHED);
    if !Truthy(fetched) {
      updated := doc;
      if MEDIA !in doc {
        return Err(KeyError(MEDIA)), updated;
      }
      if !doc[MEDIA].MediaRef? {
        return Err(AttributeError), updated;
      }
      var stored := media.Get(doc[MEDIA].id);
      file := if stored.Some? then Ok(stored.value) else Err(AttributeError);
    } else {
      updated := doc - {MEDIA_FETCHED};
      file := if fetched.Blob? then Ok(fetched.file) else Err(AttributeError);
    }
  }

  /** `doc.get('_import')`: the document comes from the import-from-storage flow. */
  predicate ImportFlag(doc: Doc) {
    Truthy(Get(doc, IMPORT))
  }

  /** How a cleanup ends, and the files it leaves. */
  datatype Cleaned = Cleaned(outcome: Outcome, files: map<MediaId, File>)

  /** Deleting `ids` in order; a missing file raises NotFound, which stops the walk. */
  function DeleteAll(ids: seq<MediaId>, files: map<MediaId, File>): Cleaned
    decreases |ids|
  {
    if ids == [] then Cleaned(Raised(Abort(500)), files)
    else if ids[0] !in files then Cleaned(Raised(NotFound), files)
    else DeleteAll(ids[1..], files - {ids[0]})
  }

  /**
   * The `except` branch of `on_create`: `delete_file_on_error(doc, id)` for
   * every id of `inserted`, then `abort(500)`; with the flag read by `doc.get`.
   */
  function CleanupSpec(doc: Doc, ids: seq<MediaId>, files: map<MediaId, File>): Cleaned {
    if ImportFlag(doc) then Cleaned(Raised(Abort(500)), files) else DeleteAll(ids, files)
  }

  /** The same branch as written, with the flag read by `doc['_import']`. */
  function CleanupAsWrittenSpec(doc: Doc, ids: seq<MediaId>, files: map<MediaId, File>): Cleaned {
    if ids != [] && IMPORT !in doc then Cleaned(Raised(KeyError(IMPORT)), files)
    else CleanupSpec(doc, ids, files)
  }

  predicate Distinct(ids: seq<MediaId>) {
    forall i, j :: 0 <= i < j < |ids| ==> ids[i] != ids[j]
  }

  /** Without the import flag, cleanup deletes every (distinct, stored) inserted file, then aborts with 500. */
  lemma {:induction false} CleanupDeletesInserted(doc: Doc, ids: seq<MediaId>, files: map<MediaId, File>)
    requires !ImportFlag(doc) && Distinct(ids)
    requires forall i :: 0 <= i < |ids| ==> ids[i] in files
    ensures CleanupSpec(doc, ids, files) == Cleaned(Raised(Abort(500)), files - set i | 0 <= i < |ids| :: ids[i])
  {
    DeleteAllDistinct(ids, files);
  }

  lemma {:induction false} DeleteAllDistinct(ids: seq<MediaId>, files: map<MediaId, File>)
    requires Distinct(ids)
    requires forall i :: 0 <= i < |ids| ==> ids[i] in files
    ensures DeleteAll(ids, files) == Cleaned(Raised(Abort(500)), files - set i | 0 <= i < |ids| :: ids[i])
    decreases |ids|
  {
    if ids != [] {
      var rest := files - {ids[0]};
      assert forall i :: 0 <= i < |ids[1..]| ==> ids[1..][i] == ids[i + 1] && ids[i + 1] in rest;
      DeleteAllDistinct(ids[1..], rest);
      var all := set i | 0 <= i < |ids| :: ids[i];
      var tail := set i | 0 <= i < |ids[1..]| :: ids[1..][i];
      assert all == tail + {ids[0]} by {
        forall x | x in all ensures x in tail + {ids[0]} {
          var i :| 0 <= i < |ids| && ids[i] == x;
          if i > 0 { assert ids[1..][i - 1] == x; }
        }
      }
      assert rest - tail == files - all;
    }
  }

  /** With the import flag, cleanup deletes nothing, then aborts with 500. */
  lemma CleanupKeepsImported(doc: Doc, ids: seq<MediaId>, files: map<MediaId, File>)
    requires ImportFlag(doc)
    ensures CleanupSpec(doc, ids, files) == Cleaned(Raised(Abort(500)), files)
    ensures CleanupAsWrittenSpec(doc, ids, files) == Cleaned(Raised(Abort(500)), files)
  {
  }

  /**
   * As written, a document without an `_import` key makes the first
   * `doc['_import']` raise KeyError: no file is deleted and the error escapes
   * instead of the 500 abort, where reading the flag with `doc.get` deletes them all.
   */
  lemma MissingImportKeyLeaksFiles(doc: Doc, ids: seq<MediaId>, files: map<MediaId, File>)
    requires IMPORT !in doc && ids != [] && Distinct(ids)
    requires forall i :: 0 <= i < |ids| ==> ids[i] in files
    ensures CleanupAsWrittenSpec(doc, ids, files) == Cleaned(Raised(KeyError(IMPORT)), files)
    ensures CleanupSpec(doc, ids, files) == Cleaned(Raised(Abort(500)), files - set i | 0 <= i < |ids| :: ids[i])
    ensures ids[0] in files && ids[0] !in CleanupSpec(doc, ids, files).files
  {
    CleanupDeletesInserted(doc, ids, files);
  }

  /** `delete_file_on_error(doc, file_id)`, reading the flag with `doc.get('_import')`. */
  method DeleteFileOnError(doc: Doc, fileId: MediaId, media: MediaStorage) returns (outcome: Outcome)
    requires media.Valid()
    modifies media
    ensures media.Valid() && media.next == old(media.next)
    ensures ImportFlag(doc) ==> outcome == Done && media.files == old(media.files)
    ensures !ImportFlag(doc) ==> media.files == old(media.files) - {fileId}
    ensures !ImportFlag(doc) ==> outcome == if fileId in old(media.files) then Done else Raised(NotFound)
  {
    if ImportFlag(doc) {
      return Done;
    }
    var found := media.Delete(fileId);
    outcome := if found then Done else Raised(NotFound);
  }

  /** `delete_file_on_error(doc, file_id)` as written: `doc['_import']` raises KeyError when the key is absent. */
  method DeleteFileOnErrorAsWritten(doc: Doc, fileId: MediaId, media: MediaStorage) returns (outcome: Outcome)
    requires media.Valid()
    modifies media
    ensures media.Valid() && media.next == old(media.next)
    ensures IMPORT !in doc ==> outcome == Raised(KeyError(IMPORT)) && media.files == old(media.files)
    ensures IMPORT in doc && Truthy(doc[IMPORT]) ==> outcome == Done && media.files == old(media.files)
    ensures IMPORT in doc && !Truthy(doc[IMPORT]) ==> media.files == old(media.files) - {fileId}
    ensures IMPORT in doc && !Truthy(doc[IMPORT]) ==>
              outcome == if fileId in old(media.files) then Done else Raised(NotFound)
  {
    if IMPORT !in doc {
      return Raised(KeyError(IMPORT));
    }
    if Truthy(doc[IMPORT]) {
      return Done;
    }
    var found := media.Delete(fileId);
    outcome := if found then Done else Raised(NotFound);
  }

  /** The `except` branch of `on_create`: clean up every inserted file, then `abort(500)`. */
  method Cleanup(doc: Doc, inserted: seq<MediaId>, media: MediaStorage) returns (outcome: Outcome)
    requires media.Valid()
    modifies media
    ensures media.Valid() && media.next == old(media.next)
    ensures Cleaned(outcome, media.files) == CleanupSpec(doc, inserted, old(media.files))
  {
    for i := 0 to |inserted|
      invariant media.Valid() && media.next == old(media.next)
      invariant CleanupSpec(doc, inserted[i..], media.files) == CleanupSpec(doc, inserted, old(media.files))
    {
      assert inserted[i..][1..] == inserted[i + 1..];
      var o := DeleteFileOnError(doc, inserted[i], media);
      if o.Raised? {
        return o;
      }
    }
    return Raised(Abort(500));
  }

  /** The same branch with `delete_file_on_error` as written. */
  method CleanupAsWritten(doc: Doc, inserted: seq<MediaId>, media: MediaStorage) returns (outcome: Outcome)
    requires media.Valid()
    modifies media
    ensures media.Valid() && media.next == old(media.next)
    ensures Cleaned(outcome, media.files) == CleanupAsWrittenSpec(doc, inserted, old(media.files))
  {
    for i := 0 to |inserted|
      invariant media.Valid() && media.next == old(media.next)
      invariant i > 0 ==> IMPORT in doc
      invariant CleanupAsWrittenSpec(doc, inserted[i..], media.files) ==
                CleanupAsWrittenSpec(doc, inserted, old(media.files))
    {
      assert inserted[i..][1..] == inserted[i + 1..];
      var o := DeleteFileOnErrorAsWritten(doc, inserted[i], media);
      if o.Raised? {
        return o;
      }
    }
    return Raised(Abort(500));
  }

  /**
   * The document after the assignments of `on_create` that precede
   * `generate_renditions`; the guid is what `generate_guid(type='tag')`
   * returns (`GenerateTagGuid`).
   */
  function StampedDoc(doc: Doc, fileType: string, stamp: Stamp, domain: string): Doc {
    WithDates(doc, stamp.utc)
      [GUID := Str(TagGuid(domain, stamp.today.year, stamp.uuid))]
      [TYPE := TypeAv(fileType)]
      [VERSION := Int(1)]
      [VERSIONCREATED := Time(stamp.utc)]
  }

  /** The document after the remaining assignments, once the renditions are built. */
  function UploadedDoc(stamped: Doc, renditions: map<string, Value>, file: File): Doc {
    stamped[RENDITIONS := Dict(renditions)][MIMETYPE := Str(file.contentType)][FILEMETA := file.metadata]
  }

  /** What creating one uploaded document leaves: the document, how it ended, the storage. */
  datatype Upload = Upload(doc: Doc, outcome: Outcome, files: map<MediaId, File>, next: MediaId)

  /** One iteration of `on_create`'s loop, from the storage's state before it. */
  function UploadSpec(doc: Doc, files: map<MediaId, File>, next: MediaId, stamp: Stamp,
                      settings: Settings, imaging: Imaging): Upload
  {
    var fetched := FileFromDocument(doc, files);
    var d := fetched.doc;
    if MEDIA !in d then Upload(d, Raised(KeyError(MEDIA)), files, next)
    else if fetched.file.Err? then Upload(d, Raised(fetched.file.error), files, next)
    else if !d[MEDIA].MediaRef? then Upload(d, Raised(TypeError), files, next)
    else
      var file := fetched.file.value;
      var mediaId := d[MEDIA].id;
      var fileType := FileType(file.contentType);
      var stamped := StampedDoc(d, fileType, stamp, settings.domain);
      var g := GenerateSpec(file, mediaId, fileType, settings, imaging, next);
      var filesAfter := files + g.stored;
      match g.result
      case Ok(renditions) => Upload(UploadedDoc(stamped, renditions, file), Done, filesAfter, next + g.count)
      case Err(_) =>
        var cleaned := CleanupSpec(stamped, [mediaId] + Ids(next, g.count), filesAfter);
        Upload(stamped, cleaned.outcome, cleaned.files, next + g.count)
  }

  /** One iteration of `on_create`'s loop, for the document `doc`. */
  method CreateFromUpload(doc: Doc, stamp: Stamp, media: MediaStorage, settings: Settings, imaging: Imaging)
    returns (updated: Doc, outcome: Outcome)
    requires media.Valid()
    modifies media
    ensures media.Valid()
    ensures Upload(updated, outcome, media.files, media.next) ==
            UploadSpec(doc, old(media.files), old(media.next), stamp, settings, imaging)
  {
    var file;
    file, updated := GetFileFromDocument(doc, media);
    // `inserted = [doc['media']]` runs before `file.content_type` is read.
    if MEDIA !in updated {
      return updated, Raised(KeyError(MEDIA));
    }
    if file.Err? {
      return updated, Raised(file.error);
    }
    if !updated[MEDIA].MediaRef? {
      return updated, Raised(TypeError);
    }
    var mediaId := updated[MEDIA].id;
    var inserted := [mediaId];
    var fileType := FileType(file.value.contentType);
    ghost var fetched := updated;
    UploadSpecReached(doc, media.files, media.next, stamp, settings, imaging, file.value, fetched, mediaId);
    // try:
    updated := UpdateDatesFor(updated, stamp.utc);
    // generate_guid(type='tag'), as `GenerateTagGuid` gives it
    updated := updated[GUID := Str(TagGuid(settings.domain, stamp.today.year, stamp.uuid))];
    updated := updated[TYPE := TypeAv(fileType)];
    updated := updated[VERSION := Int(1)];
    updated := updated[VERSIONCREATED := Time(stamp.utc)];
    assert updated == StampedDoc(fetched, fileType, stamp, settings.domain);
    var renditions;
    renditions, inserted := GenerateRenditions(file.value, mediaId, inserted, fileType, media, settings, imaging);
    if renditions.Err? {
      // except: delete what was stored, then abort(500).
      outcome := Cleanup(updated, inserted, media);
      return updated, outcome;
    }
    updated := updated[RENDITIONS := Dict(renditions.value)];
    updated := updated[MIMETYPE := Str(file.value.contentType)];
    updated := updated[FILEMETA := file.value.metadata];
    return updated, Done;
  }

  /** `UploadSpec` of an upload whose file is found and whose `media` is an id, stated on that file and id. */
  lemma UploadSpecReached(doc: Doc, files: map<MediaId, File>, next: MediaId, stamp: Stamp,
                          settings: Settings, imaging: Imaging, file: File, fetched: Doc, mediaId: MediaId)
    requires FileFromDocument(doc, files) == Fetched(Ok(file), fetched)
    requires MEDIA in fetched && fetched[MEDIA] == MediaRef(mediaId)
    ensures var g := GenerateSpec(file, mediaId, FileType(file.contentType), settings, imaging, next);
      var stamped := StampedDoc(fetched, FileType(file.contentType), stamp, settings.domain);
      var cleaned := CleanupSpec(stamped, [mediaId] + Ids(next, g.count), files + g.stored);
      UploadSpec(doc, files, next, stamp, settings, imaging) ==
        if g.result.Ok? then Upload(UploadedDoc(stamped, g.result.value, file), Done, files + g.stored, next + g.count)
        else Upload(stamped, cleaned.outcome, cleaned.files, next + g.count)
  {
  }

  /** The assignments before the renditions set the tag GUID, type, version and dates, and nothing else. */
  lemma StampedDocFields(doc: Doc, fileType: string, stamp: Stamp, domain: string)
    ensures var r := StampedDoc(doc, fileType, stamp, domain);
      && r[GUID] == Str(TagGuid(domain, stamp.today.year, stamp.uuid))
      && r[TYPE] == TypeAv(fileType)
      && r[VERSION] == Int(1)
      && r[VERSIONCREATED] == Time(stamp.utc)
      && FIRSTCREATED in r
      && (FIRSTCREATED in doc ==> r[FIRSTCREATED] == doc[FIRSTCREATED])
      && (FIRSTCREATED !in doc ==> r[FIRSTCREATED] == Time(stamp.utc))
      && (forall k :: k != GUID && k != TYPE && k != VERSION && k != VERSIONCREATED && k != FIRSTCREATED ==>
            (k in r <==> k in doc) && (k in doc ==> r[k] == doc[k]))
  {
    FieldNamesDistinct();
  }

  /** The upload gets as far as `generate_renditions`: its file is found and its `media` is an id. */
  predicate Reaches(doc: Doc, files: map<MediaId, File>) {
    var fetched := FileFromDocument(doc, files);
    fetched.file.Ok? && MEDIA in fetched.doc && fetched.doc[MEDIA].MediaRef?
  }

  /** The `generate_renditions` step of an upload that gets that far. */
  function Generation(doc: Doc, files: map<MediaId, File>, next: MediaId, settings: Settings,
                      imaging: Imaging): Generated
    requires Reaches(doc, files)
  {
    var fetched := FileFromDocument(doc, files);
    var file := fetched.file.value;
    GenerateSpec(file, fetched.doc[MEDIA].id, FileType(file.contentType), settings, imaging, next)
  }

  lemma {:induction false} DeleteAllRaises(ids: seq<MediaId>, files: map<MediaId, File>)
    ensures DeleteAll(ids, files).outcome.Raised?
    ensures DeleteAll(ids, files).files.Keys <= files.Keys
    decreases |ids|
  {
    if ids != [] && ids[0] in files {
      DeleteAllRaises(ids[1..], files - {ids[0]});
    }
  }

  /**
   * An upload is created exactly when its file is found and its renditions are
   * built. One that fails before `generate_renditions` stores and deletes nothing.
   */
  lemma UploadOutcome(doc: Doc, files: map<MediaId, File>, next: MediaId, stamp: Stamp,
                      settings: Settings, imaging: Imaging)
    ensures var u := UploadSpec(doc, files, next, stamp, settings, imaging);
      u.outcome == Done <==> Reaches(doc, files) && Generation(doc, files, next, settings, imaging).result.Ok?
    ensures var u := UploadSpec(doc, files, next, stamp, settings, imaging);
      !Reaches(doc, files) ==> u.outcome.Raised? && u.files == files && u.next == next
  {
    if Reaches(doc, files) {
      var fetched := FileFromDocument(doc, files);
      var file := fetched.file.value;
      var fileType := FileType(file.contentType);
      var stamped := StampedDoc(fetched.doc, fileType, stamp, settings.domain);
      var g := Generation(doc, files, next, settings, imaging);
      DeleteAllRaises([fetched.doc[MEDIA].id] + Ids(next, g.count), files + g.stored);
    }
  }

  /**
   * A successful upload leaves a tag GUID built from the stamp, version 1,
   * `versioncreated` now, the type of its media type, the file's content type
   * and metadata, the generated renditions, and no truthy `media_fetched`; the date
   * `firstcreated` is kept when present, and the files stored for it stay.
   */
  lemma UploadSuccessFields(doc: Doc, files: map<MediaId, File>, next: MediaId, stamp: Stamp,
                            settings: Settings, imaging: Imaging)
    requires Reaches(doc, files) && Generation(doc, files, next, settings, imaging).result.Ok?
    ensures var u := UploadSpec(doc, files, next, stamp, settings, imaging);
      var fetched := FileFromDocument(doc, files);
      var file := fetched.file.value;
      var g := Generation(doc, files, next, settings, imaging);
      && u.outcome == Done
      && u.files == files + g.stored && u.next == next + g.count
      && u.doc[GUID] == Str(TagGuid(settings.domain, stamp.today.year, stamp.uuid))
      && u.doc[VERSION] == Int(1)
      && u.doc[VERSIONCREATED] == Time(stamp.utc)
      && u.doc[TYPE] == TypeAv(FileType(file.contentType))
      && u.doc[MIMETYPE] == Str(file.contentType)
      && u.doc[FILEMETA] == file.metadata
      && u.doc[RENDITIONS] == Dict(g.result.value)
      && u.doc[MEDIA] == fetched.doc[MEDIA]
      && !Truthy(Get(u.doc, MEDIA_FETCHED))
      && FIRSTCREATED in u.doc
      && (FIRSTCREATED in doc ==> u.doc[FIRSTCREATED] == doc[FIRSTCREATED])
  {
    var fetched := FileFromDocument(doc, files);
    var file := fetched.file.value;
    var fileType := FileType(file.contentType);
    var g := Generation(doc, files, next, settings, imaging);
    var stamped := StampedDoc(fetched.doc, fileType, stamp, settings.domain);
    assert UploadSpec(doc, files, next, stamp, settings, imaging) ==
           Upload(UploadedDoc(stamped, g.result.value, file), Done, files + g.stored, next + g.count);
    UploadedDocFields(fetched.doc, fileType, stamp, settings.domain, g.result.value, file);
    assert !Truthy(Get(fetched.doc, MEDIA_FETCHED));
    FieldNamesDistinct();
  }

  /** The fields of a created upload, given the document its file was fetched from. */
  lemma UploadedDocFields(d: Doc, fileType: string, stamp: Stamp, domain: string,
                          renditions: map<string, Value>, file: File)
    ensures var r := UploadedDoc(StampedDoc(d, fileType, stamp, domain), renditions, file);
      && r[GUID] == Str(TagGuid(domain, stamp.today.year, stamp.uuid))
      && r[VERSION] == Int(1)
      && r[VERSIONCREATED] == Time(stamp.utc)
      && r[TYPE] == TypeAv(fileType)
      && r[MIMETYPE] == Str(file.contentType)
      && r[FILEMETA] == file.metadata
      && r[RENDITIONS] == Dict(renditions)
      && Get(r, MEDIA) == Get(d, MEDIA)
      && Get(r, MEDIA_FETCHED) == Get(d, MEDIA_FETCHED)
      && FIRSTCREATED in r
      && (FIRSTCREATED in d ==> r[FIRSTCREATED] == d[FIRSTCREATED])
  {
    StampedDocFields(d, fileType, stamp, domain);
    FieldNamesDistinct();
    assert MEDIA != GUID && MEDIA != TYPE && MEDIA != VERSION && MEDIA != VERSIONCREATED && MEDIA != FIRSTCREATED;
    assert MEDIA != RENDITIONS && MEDIA != MIMETYPE && MEDIA != FILEMETA;
  }

  /** The files a generation stores are exactly the fresh ids it inserts. */
  lemma GeneratedFilesAreFresh(original: File, mediaId: MediaId, fileType: string, settings: Settings,
                               imaging: Imaging, start: MediaId)
    ensures var g := GenerateSpec(original, mediaId, fileType, settings, imaging, start);
      forall id :: id in g.stored <==> start <= id < start + g.count
  {
  }

  /** The import flag is not among the fields the upload sets or removes. */
  lemma StampedKeepsImportFlag(doc: Doc, files: map<MediaId, File>, fileType: string, stamp: Stamp, domain: string)
    ensures ImportFlag(StampedDoc(FileFromDocument(doc, files).doc, fileType, stamp, domain)) <==> ImportFlag(doc)
  {
    FieldNamesDistinct();
    StampedDocFields(FileFromDocument(doc, files).doc, fileType, stamp, domain);
  }

  /**
   * When building the renditions fails, a document without the import flag
   * whose upload is in storage ends with every file stored for it deleted,
   * the upload included, and a 500 abort.
   */
  lemma UploadFailureRollsBack(doc: Doc, files: map<MediaId, File>, next: MediaId, stamp: Stamp,
                               settings: Settings, imaging: Imaging)
    requires forall id :: id in files ==> id < next
    requires Reaches(doc, files) && Generation(doc, files, next, settings, imaging).result.Err?
    requires !ImportFlag(doc) && FileFromDocument(doc, files).doc[MEDIA].id in files
    ensures var u := UploadSpec(doc, files, next, stamp, settings, imaging);
      && u.outcome == Raised(Abort(500))
      && u.files == files - {FileFromDocument(doc, files).doc[MEDIA].id}
      && u.next == next + Generation(doc, files, next, settings, imaging).count
  {
    var fetched := FileFromDocument(doc, files);
    var file := fetched.file.value;
    var mediaId := fetched.doc[MEDIA].id;
    var fileType := FileType(file.contentType);
    var g := Generation(doc, files, next, settings, imaging);
    var stamped := StampedDoc(fetched.doc, fileType, stamp, settings.domain);
    var ids := [mediaId] + Ids(next, g.count);
    var filesAfter := files + g.stored;
    assert UploadSpec(doc, files, next, stamp, settings, imaging) ==
           Upload(stamped, CleanupSpec(stamped, ids, filesAfter).outcome,
                  CleanupSpec(stamped, ids, filesAfter).files, next + g.count);
    StampedKeepsImportFlag(doc, files, fileType, stamp, settings.domain);
    GeneratedFilesAreFresh(file, mediaId, fileType, settings, imaging, next);
    CleanupOfUpload(stamped, files, g.stored, mediaId, next, g.count);
  }

  /** Cleaning up an upload and the `count` files stored after it, all at fresh ids, leaves the storage as before less the upload. */
  lemma CleanupOfUpload(doc: Doc, files: map<MediaId, File>, stored: map<MediaId, File>,
                        mediaId: MediaId, next: MediaId, count: nat)
    requires forall id :: id in files ==> id < next
    requires forall id :: id in stored <==> next <= id < next + count
    requires !ImportFlag(doc) && mediaId in files
    ensures CleanupSpec(doc, [mediaId] + Ids(next, count), files + stored) ==
            Cleaned(Raised(Abort(500)), files - {mediaId})
  {
    var ids := [mediaId] + Ids(next, count);
    var filesAfter := files + stored;
    forall i | 0 <= i < |ids| ensures ids[i] in filesAfter {
      if i > 0 { assert ids[i] == next + i - 1; }
    }
    assert Distinct(ids);
    CleanupDeletesInserted(doc, ids, filesAfter);
    var inserted := set i | 0 <= i < |ids| :: ids[i];
    assert inserted == {mediaId} + stored.Keys by {
      forall x | x in {mediaId} + stored.Keys ensures x in inserted {
        if x != mediaId {
          assert ids[x - next + 1] == x;
        }
      }
      assert ids[0] == mediaId;
    }
    assert filesAfter - inserted == files - {mediaId};
  }

  /**
   * Without the import flag, a failed upload whose own file is not in storage
   * (it came in `media_fetched`) stops the cleanup at its first id with
   * NotFound: the resized copies stored for it stay in storage.
   */
  lemma UploadFailureKeepsCopiesOfUnstoredUpload(doc: Doc, files: map<MediaId, File>, next: MediaId, stamp: Stamp,
                                                 settings: Settings, imaging: Imaging)
    requires forall id :: id in files ==> id < next
    requires Reaches(doc, files) && Generation(doc, files, next, settings, imaging).result.Err?
    requires !ImportFlag(doc)
    requires FileFromDocument(doc, files).doc[MEDIA].id !in files
    requires FileFromDocument(doc, files).doc[MEDIA].id < next
    ensures var u := UploadSpec(doc, files, next, stamp, settings, imaging);
      && u.outcome == Raised(NotFound)
      && u.files == files + Generation(doc, files, next, settings, imaging).stored
  {
    var fetched := FileFromDocument(doc, files);
    var file := fetched.file.value;
    var mediaId := fetched.doc[MEDIA].id;
    var fileType := FileType(file.contentType);
    var g := Generation(doc, files, next, settings, imaging);
    var stamped := StampedDoc(fetched.doc, fileType, stamp, settings.domain);
    var ids := [mediaId] + Ids(next, g.count);
    var filesAfter := files + g.stored;
    assert UploadSpec(doc, files, next, stamp, settings, imaging) ==
           Upload(stamped, CleanupSpec(stamped, ids, filesAfter).outcome,
                  CleanupSpec(stamped, ids, filesAfter).files, next + g.count);
    StampedKeepsImportFlag(doc, files, fileType, stamp, settings.domain);
    GeneratedFilesAreFresh(file, mediaId, fileType, settings, imaging, next);
    assert ids[0] == mediaId && mediaId !in filesAfter;
  }

  /**
   * A document without `media` fails with KeyError('media'), with or without
   * `media_fetched`, before anything is stored or deleted.
   */
  lemma UploadWithoutMedia(doc: Doc, files: map<MediaId, File>, next: MediaId, stamp: Stamp,
                           settings: Settings, imaging: Imaging)
    requires MEDIA !in doc
    ensures UploadSpec(doc, files, next, stamp, settings, imaging) ==
            Upload(FileFromDocument(doc, files).doc, Raised(KeyError(MEDIA)), files, next)
  {
    FieldNamesDistinct();
  }

  /**
   * When building the renditions fails for a document with the import flag,
   * nothing is deleted (the files stored for it stay) and the request aborts with 500.
   */
  lemma UploadFailureKeepsImported(doc: Doc, files: map<MediaId, File>, next: MediaId, stamp: Stamp,
                                   settings: Settings, imaging: Imaging)
    requires Reaches(doc, files) && Generation(doc, files, next, settings, imaging).result.Err?
    requires ImportFlag(doc)
    ensures var u := UploadSpec(doc, files, next, stamp, settings, imaging);
      && u.outcome == Raised(Abort(500))
      && u.files == files + Generation(doc, files, next, settings, imaging).stored
  {
    var fetched := FileFromDocument(doc, files);
    var fileType := FileType(fetched.file.value.contentType);
    StampedKeepsImportFlag(doc, files, fileType, stamp, settings.domain);
  }

  /** What `on_create(docs)` leaves: the documents, how it ended, the storage. */
  datatype Uploads = Uploads(docs: seq<Doc>, outcome: Outcome, files: map<MediaId, File>, next: MediaId)

  /** One creation as a value: from the document, the storage's files and next id, and the clock. */
  type Creator = (Doc, map<MediaId, File>, MediaId, Stamp) -> Upload

  /** The creation `on_create` performs on each document. */
  function Creation(settings: Settings, imaging: Imaging): Creator {
    (doc, files, next, stamp) => UploadSpec(doc, files, next, stamp, settings, imaging)
  }

  /**
   * `create` agrees with `UploadSpec` on every input. The loop of `on_create`
   * is proved for any such `create`; the trigger keeps its proof from
   * unfolding `UploadSpec` where it only needs to pass the result along.
   */
  ghost predicate IsCreation(create: Creator, settings: Settings, imaging: Imaging) {
    forall doc, files, next, stamp {:trigger UploadSpec(doc, files, next, stamp, settings, imaging)} ::
      create(doc, files, next, stamp) == UploadSpec(doc, files, next, stamp, settings, imaging)
  }

  lemma CreationIsCreation(settings: Settings, imaging: Imaging)
    ensures IsCreation(Creation(settings, imaging), settings, imaging)
  {
  }

  /**
   * The loop of `on_create(docs)` over its first `n` documents: each is
   * replaced by what its creation leaves, and the loop stops at the first
   * creation that raises, leaving the rest untouched.
   */
  function UploadPrefix(docs: seq<Doc>, stamps: seq<Stamp>, n: nat, files: map<MediaId, File>, next: MediaId,
                        create: Creator): (r: Uploads)
    requires |stamps| == |docs| && n <= |docs|
    ensures |r.docs| == |docs|
    ensures forall j :: n <= j < |docs| ==> r.docs[j] == docs[j]
  {
    if n == 0 then Uploads(docs, Done, files, next)
    else
      var p := UploadPrefix(docs, stamps, n - 1, files, next, create);
      if p.outcome.Raised? then p
      else
        var u := create(docs[n - 1], p.files, p.next, stamps[n - 1]);
        Uploads(p.docs[n - 1 := u.doc], u.outcome, u.files, u.next)
  }

  /** `on_create(docs)` over the whole list. */
  function UploadAll(docs: seq<Doc>, stamps: seq<Stamp>, files: map<MediaId, File>, next: MediaId,
                     settings: Settings, imaging: Imaging): Uploads
    requires |stamps| == |docs|
  {
    UploadPrefix(docs, stamps, |docs|, files, next, Creation(settings, imaging))
  }

  /** Two creations that agree on every input give the same loop. */
  lemma {:induction false} UploadPrefixAgree(docs: seq<Doc>, stamps: seq<Stamp>, n: nat,
                                             files: map<MediaId, File>, next: MediaId, c: Creator, d: Creator)
    requires |stamps| == |docs| && n <= |docs|
    requires forall doc, files, next, stamp :: c(doc, files, next, stamp) == d(doc, files, next, stamp)
    ensures UploadPrefix(docs, stamps, n, files, next, c) == UploadPrefix(docs, stamps, n, files, next, d)
  {
    if n > 0 {
      UploadPrefixAgree(docs, stamps, n - 1, files, next, c, d);
    }
  }

  /** The loop over any `create` that agrees with `UploadSpec` is `on_create` itself. */
  lemma UploadPrefixOfCreation(docs: seq<Doc>, stamps: seq<Stamp>, n: nat,
                               files: map<MediaId, File>, next: MediaId,
                               settings: Settings, imaging: Imaging, create: Creator)
    requires |stamps| == |docs| && n <= |docs|
    requires IsCreation(create, settings, imaging)
    ensures UploadPrefix(docs, stamps, n, files, next, create) ==
            UploadPrefix(docs, stamps, n, files, next, Creation(settings, imaging))
  {
    forall doc, files, next, stamp
      ensures create(doc, files, next, stamp) == Creation(settings, imaging)(doc, files, next, stamp)
    {
      assert Creation(settings, imaging)(doc, files, next, stamp) == UploadSpec(doc, files, next, stamp, settings, imaging);
    }
    UploadPrefixAgree(docs, stamps, n, files, next, create, Creation(settings, imaging));
  }

  /** Once a creation raises, the loop is over: later documents change nothing. */
  lemma {:induction false} UploadPrefixStops(docs: seq<Doc>, stamps: seq<Stamp>, n: nat, m: nat,
                                             files: map<MediaId, File>, next: MediaId, create: Creator)
    requires |stamps| == |docs| && n <= m <= |docs|
    requires UploadPrefix(docs, stamps, n, files, next, create).outcome.Raised?
    ensures UploadPrefix(docs, stamps, m, files, next, create) == UploadPrefix(docs, stamps, n, files, next, create)
    decreases m - n
  {
    if m > n {
      UploadPrefixStops(docs, stamps, n, m - 1, files, next, create);
    }
  }

  /**
   * One turn of the loop, with `u` what creating document `n` leaves on the
   * storage left so far: it either goes on to the next document or, when it
   * raised, ends the whole loop.
   */
  lemma UploadPrefixStep(docs: seq<Doc>, stamps: seq<Stamp>, n: nat, files: map<MediaId, File>, next: MediaId,
                         create: Creator, before: seq<Doc>, filesBefore: map<MediaId, File>, nextBefore: MediaId,
                         u: Upload)
    requires |stamps| == |docs| && n < |docs|
    requires UploadPrefix(docs, stamps, n, files, next, create) == Uploads(before, Done, filesBefore, nextBefore)
    requires u == create(before[n], filesBefore, nextBefore, stamps[n])
    ensures u.outcome.Raised? ==>
              UploadPrefix(docs, stamps, |docs|, files, next, create) == Uploads(before[n := u.doc], u.outcome, u.files, u.next)
    ensures !u.outcome.Raised? ==>
              UploadPrefix(docs, stamps, n + 1, files, next, create) == Uploads(before[n := u.doc], Done, u.files, u.next)
  {
    if u.outcome.Raised? {
      UploadPrefixStops(docs, stamps, n + 1, |docs|, files, next, create);
    }
  }

  /** Cleanup only removes files. */
  lemma CleanupOnlyDeletes(doc: Doc, ids: seq<MediaId>, files: map<MediaId, File>)
    ensures CleanupSpec(doc, ids, files).files.Keys <= files.Keys
  {
    if !ImportFlag(doc) {
      DeleteAllRaises(ids, files);
    }
  }

  /**
   * Every file one creation leaves that was not stored before it was stored
   * by it, under an id it handed out: one in `[next, next')`.
   */
  lemma UploadStoresFreshIds(doc: Doc, files: map<MediaId, File>, next: MediaId, stamp: Stamp,
                             settings: Settings, imaging: Imaging)
    ensures var u := UploadSpec(doc, files, next, stamp, settings, imaging);
      && next <= u.next
      && forall id :: id in u.files && id !in files ==> next <= id < u.next
  {
    if Reaches(doc, files) {
      var fetched := FileFromDocument(doc, files);
      var file := fetched.file.value;
      var mediaId := fetched.doc[MEDIA].id;
      var fileType := FileType(file.contentType);
      var stamped := StampedDoc(fetched.doc, fileType, stamp, settings.domain);
      var g := Generation(doc, files, next, settings, imaging);
      GeneratedFilesAreFresh(file, mediaId, fileType, settings, imaging, next);
      CleanupOnlyDeletes(stamped, [mediaId] + Ids(next, g.count), files + g.stored);
    }
  }

  /**
   * Over the whole list, every file left that was not stored before has an id
   * the loop handed out, in `[next, next')`: with the storage's invariant
   * (no stored id at or above `next`), no upload reuses the id of a file that
   * was already there.
   */
  lemma {:induction false} UploadPrefixStoresFreshIds(docs: seq<Doc>, stamps: seq<Stamp>, n: nat,
                                                      files: map<MediaId, File>, next: MediaId,
                                                      settings: Settings, imaging: Imaging)
    requires |stamps| == |docs| && n <= |docs|
    ensures var r := UploadPrefix(docs, stamps, n, files, next, Creation(settings, imaging));
      && next <= r.next
      && forall id :: id in r.files && id !in files ==> next <= id < r.next
  {
    if n > 0 {
      var create := Creation(settings, imaging);
      UploadPrefixStoresFreshIds(docs, stamps, n - 1, files, next, settings, imaging);
      var p := UploadPrefix(docs, stamps, n - 1, files, next, create);
      if !p.outcome.Raised? {
        UploadStoresFreshIds(docs[n - 1], p.files, p.next, stamps[n - 1], settings, imaging);
      }
    }
  }

  /** `CreateFromUpload`, with its result stated through a `create` that agrees with `UploadSpec`. */
  method CreateDocument(doc: Doc, stamp: Stamp, media: MediaStorage, settings: Settings, imaging: Imaging,
                        ghost create: Creator)
    returns (updated: Doc, outcome: Outcome)
    requires media.Valid() && IsCreation(create, settings, imaging)
    modifies media
    ensures media.Valid()
    ensures Upload(updated, outcome, media.files, media.next) == create(doc, old(media.files), old(media.next), stamp)
  {
    updated, outcome := CreateFromUpload(doc, stamp, media, settings, imaging);
  }

  /**
   * `ArchiveMediaModel.on_create(docs)`, updating the documents in place. The
   * ghost `create` stands for `Creation(settings, imaging)`
   * (`CreationIsCreation`), and `UploadPrefixOfCreation` turns the result
   * into `UploadAll`.
   */
  method OnCreate(docs: array<Doc>, stamps: seq<Stamp>, media: MediaStorage, settings: Settings, imaging: Imaging,
                  ghost create: Creator)
    returns (outcome: Outcome)
    requires |stamps| == docs.Length && media.Valid()
    requires IsCreation(create, settings, imaging)
    modifies docs, media
    ensures media.Valid()
    ensures Uploads(docs[..], outcome, media.files, media.next) ==
            UploadPrefix(old(docs[..]), stamps, docs.Length, old(media.files), old(media.next), create)
  {
    ghost var original := docs[..];
    ghost var files, next := media.files, media.next;
    for i := 0 to docs.Length
      invariant media.Valid()
      invariant Uploads(docs[..], Done, media.files, media.next) == UploadPrefix(original, stamps, i, files, next, create)
    {
      ghost var before, filesBefore, nextBefore := docs[..], media.files, media.next;
      var updated, o := CreateDocument(docs[i], stamps[i], media, settings, imaging, create);
      UploadPrefixStep(original, stamps, i, files, next, create, before, filesBefore, nextBefore,
                       Upload(updated, o, media.files, media.next));
      docs[i] := updated;
      assert docs[..] == before[i := updated];
      if o.Raised? {
        return o;
      }
    }
    assert docs.Length == |original|;
    return Done;
  }
}

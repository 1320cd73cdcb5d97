/**
 * The two stores the hooks change: the media storage (`app.media`), which
 * holds uploaded and generated files by id, and the archive collection the
 * `archive_media` resource reads and updates.
 */
module Storage {
  import opened Values

  /** The media storage: `get(id)`, `put(file) -> id`, `delete(id)`. */
  class MediaStorage {
    var files: map<MediaId, File>
    /** No id at or above `next` has been handed out, so `next` is always fresh. */
    var next: MediaId

    ghost predicate Valid()
      reads this
    {
      forall id :: id in files ==> id < next
    }

    constructor ()
      ensures Valid() && files == map[] && next == 0
    {
      files := map[];
      next := 0;
    }

    /** `get(id)`: the stored file, or None when there is none. */
    method Get(id: MediaId) returns (f: Option<File>)
      ensures f.Some? <==> id in files
      ensures f.Some? ==> f.value == files[id]
    {
      f := if id in files then Some(files[id]) else None;
    }

    /** `put(file)`: store the file under an id no stored file has. */
    method Put(f: File) returns (id: MediaId)
      requires Valid()
      modifies this
      ensures Valid()
      ensures id !in old(files)
      ensures id == old(next) && next == old(next) + 1
      ensures files == old(files)[id := f]
    {
      id := next;
      files := files[id := f];
      next := next + 1;
    }

    /** `delete(id)`: remove the file; `found` is false where the backend raises NotFound. */
    method Delete(id: MediaId) returns (found: bool)
      requires Valid()
      modifies this
      ensures Valid() && next == old(next)
      ensures found <==> id in old(files)
      ensures files == old(files) - {id}
    {
      found := id in files;
      files := files - {id};
    }
  }

  /** The archive items the `archive_media` service finds and updates, by `_id`. */
  class ArchiveCollection {
    var docs: map<string, Doc>

    constructor (docs: map<string, Doc>)
      ensures this.docs == docs
    {
      this.docs := docs;
    }
  }
}

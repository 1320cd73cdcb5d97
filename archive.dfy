/**
 * `ArchiveModel.on_delete`: when an archive item is deleted, every stored
 * file its renditions reference is deleted too, best effort.
 */
module ArchiveModel {
  import opened Values
  import opened Storage
  import opened Fields


  /** The stored file a rendition names through `ref['media']`, if it names one. */
  function ReferencedId(ref: Value): Option<MediaId> {
    if ref.Dict? && MEDIA in ref.fields && ref.fields[MEDIA].MediaRef?
    then Some(ref.fields[MEDIA].id) else None
  }

  /** The ids the renditions called `names` reference. */
  function ReferencedIds(renditions: map<string, Value>, names: set<string>): (ids: set<MediaId>)
    ensures forall n :: n in names && n in renditions && ReferencedId(renditions[n]).Some? ==>
              ReferencedId(renditions[n]).value in ids
    ensures forall id :: id in ids ==>
              exists n :: n in names && n in renditions && ReferencedId(renditions[n]) == Some(id)
  {
    set n | n in names && n in renditions && ReferencedId(renditions[n]).Some? :: ReferencedId(renditions[n]).value
  }

  lemma ReferencedIdsAdd(renditions: map<string, Value>, names: set<string>, n: string)
    requires n in renditions
    ensures ReferencedIds(renditions, names + {n}) ==
            ReferencedIds(renditions, names) +
            (if ReferencedId(renditions[n]).Some? then {ReferencedId(renditions[n]).value} else {})
  {
  }

  /** Deleting the file of one more rendition keeps "the files less those already referenced". */
  lemma DeleteStep(files: map<MediaId, File>, before: map<MediaId, File>, after: map<MediaId, File>,
                   renditions: map<string, Value>, done: set<string>, n: string)
    requires n in renditions
    requires before == files - ReferencedIds(renditions, done)
    requires after == if ReferencedId(renditions[n]).Some? then before - {ReferencedId(renditions[n]).value} else before
    ensures after == files - ReferencedIds(renditions, done + {n})
  {
    ReferencedIdsAdd(renditions, done, n);
  }

  lemma ReferencedIdsMonotonic(renditions: map<string, Value>, names: set<string>, more: set<string>)
    requires names <= more
    ensures ReferencedIds(renditions, names) <= ReferencedIds(renditions, more)
  {
  }

  /** The renditions dict `on_delete` walks: `doc.get('renditions')` when both it and `doc` are truthy. */
  function RenditionsToDelete(doc: Doc): Option<Value> {
    if Truthy(Dict(doc)) && Truthy(Get(doc, RENDITIONS)) then Some(doc[RENDITIONS]) else None
  }

  /**
   * `on_delete(doc)`: delete the file of every rendition. A rendition without
   * `media`, or whose file is not found, is skipped and the walk goes on; a
   * rendition that is not a dict raises TypeError, which stops it.
   */
  method OnDelete(doc: Doc, media: MediaStorage) returns (outcome: Outcome)
    requires media.Valid()
    modifies media
    ensures media.Valid() && media.next == old(media.next)
    ensures RenditionsToDelete(doc).None? ==> outcome == Done && media.files == old(media.files)
    ensures RenditionsToDelete(doc).Some? && !RenditionsToDelete(doc).value.Dict? ==>
              outcome == Raised(AttributeError) && media.files == old(media.files)
    ensures RenditionsToDelete(doc).Some? && RenditionsToDelete(doc).value.Dict? ==>
              var rs := RenditionsToDelete(doc).value.fields;
              && (outcome == Done <==> forall n :: n in rs ==> rs[n].Dict?)
              && (outcome == Done ==> media.files == old(media.files) - ReferencedIds(rs, rs.Keys))
              && (outcome != Done ==> outcome == Raised(TypeError))
              && (forall id :: id in media.files ==> id in old(media.files) && media.files[id] == old(media.files)[id])
              && (forall id :: id in old(media.files) && id !in ReferencedIds(rs, rs.Keys) ==> id in media.files)
  {
    var target := RenditionsToDelete(doc);
    if target.None? {
      return Done;
    }
    if !target.value.Dict? {
      return Raised(AttributeError);
    }
    var rs := target.value.fields;
    var remaining := rs.Keys;
    while remaining != {}
      invariant remaining <= rs.Keys
      invariant forall n :: n in rs.Keys - remaining ==> rs[n].Dict?
      invariant media.Valid() && media.next == old(media.next)
      invariant media.files == old(media.files) - ReferencedIds(rs, rs.Keys - remaining)
      decreases remaining
    {
      var name :| name in remaining;
      ReferencedIdsMonotonic(rs, rs.Keys - remaining, rs.Keys);
      var ref := rs[name];
      if !ref.Dict? {
        return Raised(TypeError);
      }
      ghost var before := media.files;
      if MEDIA in ref.fields && ref.fields[MEDIA].MediaRef? {
        // A NotFound from the storage is swallowed.
        var _ := media.Delete(ref.fields[MEDIA].id);
      }
      DeleteStep(old(media.files), before, media.files, rs, rs.Keys - remaining, name);
      assert rs.Keys - (remaining - {name}) == (rs.Keys - remaining) + {name};
      remaining := remaining - {name};
    }
    return Done;
  }
}

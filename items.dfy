/**
 * Creation-time defaults of content items (`on_create_item`, `update_dates_for`),
 * run by the ingest, planning and archive resources on every created document.
 */
module Items {
  import opened Values
  import opened Guid
  import opened Fields

  /** What a hook reads, for one document, from the clock and the uuid generator. */
  datatype Stamp = Stamp(utc: DateTime, today: DateTime, uuid: string)

  /** The fields `update_dates_for` defaults, in its order. */
  const DATE_FIELDS := [FIRSTCREATED, VERSIONCREATED]

  /** `setdefault(k, v)` for each `k` of `keys` in turn. */
  function SetDefaults(doc: Doc, keys: seq<string>, v: Value): (r: Doc)
    ensures forall k :: k in keys ==> k in r
    ensures forall k :: k in doc ==> k in r && r[k] == doc[k]
    ensures forall k :: k in r && k !in doc ==> k in keys && r[k] == v
    decreases |keys|
  {
    if keys == [] then doc
    else SetDefault(SetDefaults(doc, keys[..|keys| - 1], v), keys[|keys| - 1], v)
  }

  /**
   * The dict `update_dates_for` leaves: both date fields present, the values
   * already there kept, the missing ones set to `now`, nothing else touched.
   */
  function WithDates(doc: Doc, now: DateTime): (r: Doc)
    ensures FIRSTCREATED in r && VERSIONCREATED in r
    ensures forall k :: k in doc ==> k in r && r[k] == doc[k]
    ensures forall k :: k in r && k !in doc ==> (k == FIRSTCREATED || k == VERSIONCREATED) && r[k] == Time(now)
  {
    SetDefaults(doc, DATE_FIELDS, Time(now))
  }

  /** `update_dates_for(doc)`, with `utcnow()` reading `now`. */
  method UpdateDatesFor(doc: Doc, now: DateTime) returns (updated: Doc)
    ensures updated == WithDates(doc, now)
  {
    updated := doc;
    for i := 0 to |DATE_FIELDS|
      invariant updated == SetDefaults(doc, DATE_FIELDS[..i], Time(now))
    {
      assert DATE_FIELDS[..i + 1][..i] == DATE_FIELDS[..i];
      updated := SetDefault(updated, DATE_FIELDS[i], Time(now));
    }
    assert DATE_FIELDS[..|DATE_FIELDS|] == DATE_FIELDS;
  }

  /**
   * `doc['guid'] = generate_guid(type='newsml')` unless the guid is already
   * truthy (`GenerateNewsmlGuid` gives the value that call returns).
   */
  function WithGuid(doc: Doc, stamp: Stamp, domain: string): Doc {
    if Truthy(Get(doc, GUID)) then doc
    else doc[GUID := Str(NewsmlGuid(domain, stamp.today, stamp.uuid))]
  }

  /** What `on_create_item` makes of one document. */
  function CreateItemDefaults(doc: Doc, stamp: Stamp, domain: string): Doc {
    var named := WithGuid(WithDates(doc, stamp.utc), stamp, domain);
    SetDefault(named, ID, named[GUID])
  }

  /** Both date fields are present afterwards; a value already there is kept, a missing one is `utcnow()`. */
  lemma CreateItemSetsDates(doc: Doc, stamp: Stamp, domain: string, k: string)
    requires k == FIRSTCREATED || k == VERSIONCREATED
    ensures k in CreateItemDefaults(doc, stamp, domain)
    ensures k in doc ==> CreateItemDefaults(doc, stamp, domain)[k] == doc[k]
    ensures k !in doc ==> CreateItemDefaults(doc, stamp, domain)[k] == Time(stamp.utc)
  {
    FieldNamesDistinct();
  }

  /**
   * A missing or falsy guid is replaced by a newsml GUID built from the
   * stamp; a truthy one is kept. Either way the guid is truthy afterwards.
   */
  lemma CreateItemGuid(doc: Doc, stamp: Stamp, domain: string)
    ensures GUID in CreateItemDefaults(doc, stamp, domain)
    ensures Truthy(Get(doc, GUID)) ==> CreateItemDefaults(doc, stamp, domain)[GUID] == doc[GUID]
    ensures !Truthy(Get(doc, GUID)) ==>
              CreateItemDefaults(doc, stamp, domain)[GUID] == Str(NewsmlGuid(domain, stamp.today, stamp.uuid))
    ensures Truthy(CreateItemDefaults(doc, stamp, domain)[GUID])
  {
    FieldNamesDistinct();
    assert NewsmlGuid(domain, stamp.today, stamp.uuid)[0] == 'u';
    var dated := WithDates(doc, stamp.utc);
    assert Get(dated, GUID) == Get(doc, GUID);
  }

  /** `_id` is defaulted to the (final) guid, and kept when it was present. */
  lemma CreateItemId(doc: Doc, stamp: Stamp, domain: string)
    ensures ID in CreateItemDefaults(doc, stamp, domain)
    ensures ID in doc ==> CreateItemDefaults(doc, stamp, domain)[ID] == doc[ID]
    ensures ID !in doc ==> CreateItemDefaults(doc, stamp, domain)[ID] == CreateItemDefaults(doc, stamp, domain)[GUID]
  {
    FieldNamesDistinct();
  }

  /** No field other than the two dates, `guid` and `_id` is added, removed or changed. */
  lemma CreateItemKeepsOtherFields(doc: Doc, stamp: Stamp, domain: string, k: string)
    requires k != FIRSTCREATED && k != VERSIONCREATED && k != GUID && k != ID
    ensures k in CreateItemDefaults(doc, stamp, domain) <==> k in doc
    ensures k in doc ==> CreateItemDefaults(doc, stamp, domain)[k] == doc[k]
  {
  }

  /** A document that already has both dates, a truthy guid and an `_id` is left as it is. */
  lemma CreateItemDefaultsFixed(doc: Doc, stamp: Stamp, domain: string)
    requires FIRSTCREATED in doc && VERSIONCREATED in doc && Truthy(Get(doc, GUID)) && ID in doc
    ensures CreateItemDefaults(doc, stamp, domain) == doc
  {
    var dated := WithDates(doc, stamp.utc);
    assert dated.Keys == doc.Keys;
    assert dated == doc;
  }

  /** Running the defaults again changes nothing: every field they set is then present. */
  lemma CreateItemDefaultsIdempotent(doc: Doc, first: Stamp, second: Stamp, domain: string)
    ensures CreateItemDefaults(CreateItemDefaults(doc, first, domain), second, domain) ==
            CreateItemDefaults(doc, first, domain)
  {
    var once := CreateItemDefaults(doc, first, domain);
    CreateItemSetsDates(doc, first, domain, FIRSTCREATED);
    CreateItemSetsDates(doc, first, domain, VERSIONCREATED);
    CreateItemGuid(doc, first, domain);
    CreateItemId(doc, first, domain);
    CreateItemDefaultsFixed(once, second, domain);
  }

  /** The body of `on_create_item`'s loop, for one document. */
  method CreateItem(doc: Doc, stamp: Stamp, domain: string) returns (created: Doc)
    ensures created == CreateItemDefaults(doc, stamp, domain)
  {
    created := UpdateDatesFor(doc, stamp.utc);
    if !Truthy(Get(created, GUID)) {
      // generate_guid(type='newsml'), as `GenerateNewsmlGuid` gives it
      created := created[GUID := Str(NewsmlGuid(domain, stamp.today, stamp.uuid))];
    }
    created := SetDefault(created, ID, created[GUID]);
  }

  /** `on_create_item(docs)`: each document of the list receives its defaults in place. */
  method OnCreateItem(docs: array<Doc>, stamps: seq<Stamp>, domain: string)
    requires |stamps| == docs.Length
    modifies docs
    ensures forall i :: 0 <= i < docs.Length ==> docs[i] == CreateItemDefaults(old(docs[i]), stamps[i], domain)
  {
    for i := 0 to docs.Length
      invariant forall j :: 0 <= j < i ==> docs[j] == CreateItemDefaults(old(docs[j]), stamps[j], domain)
      invariant forall j :: i <= j < docs.Length ==> docs[j] == old(docs[j])
    {
      docs[i] := CreateItem(docs[i], stamps[i], domain);
    }
  }
}

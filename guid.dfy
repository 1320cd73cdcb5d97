/**
 * GUID generation (`generate_guid`): a `tag:` URI or a `urn:newsml:` URN built
 * from the server domain, the local date and time, and an identifier that
 * defaults to a fresh uuid. The clock reading and the uuid are parameters.
 */
module Guid {
  import opened Values
  import opened Text

  const GUID_TAG := "tag"
  const GUID_NEWSML := "newsml"

  /** `'%04d-%02d-%02d'` of the date. */
  function DatePart(t: DateTime): string {
    Pad(t.year, 4) + "-" + Pad(t.month, 2) + "-" + Pad(t.day, 2)
  }

  /** Seconds, followed by `.ffffff` only when there are microseconds. */
  function SecondsPart(t: DateTime): string {
    Pad(t.second, 2) + (if t.microsecond != 0 then "." + Pad(t.microsecond, 6) else "")
  }

  /** `t.isoformat()` of a naive datetime: `YYYY-MM-DDTHH:MM:SS[.ffffff]`. */
  function IsoFormat(t: DateTime): string {
    DatePart(t) + "T" + Pad(t.hour, 2) + ":" + Pad(t.minute, 2) + ":" + SecondsPart(t)
  }

  /** `'tag:%(domain)s:%(year)d:%(identifier)s'`. */
  function TagGuid(domain: string, year: nat, id: string): string {
    "tag:" + domain + ":" + DecimalString(year) + ":" + id
  }

  /** `'urn:newsml:%(domain)s:%(timestamp)s:%(identifier)s'`. */
  function NewsmlGuid(domain: string, t: DateTime, id: string): string {
    "urn:newsml:" + domain + ":" + IsoFormat(t) + ":" + id
  }

  /** The `id` hint when it is given and non-empty, else the fresh uuid. */
  function Identifier(id: Option<string>, uuid: string): (r: string)
    ensures id.Some? && id.value != "" ==> r == id.value
    ensures id.None? || id.value == "" ==> r == uuid
  {
    if id.Some? && id.value != "" then id.value else uuid
  }

  predicate StartsWith(s: string, prefix: string) {
    |prefix| <= |s| && s[..|prefix|] == prefix
  }

  predicate EndsWith(s: string, suffix: string) {
    |suffix| <= |s| && s[|s| - |suffix|..] == suffix
  }

  /**
   * `generate_guid(type=typ, id=id)` with server domain `domain`, local time
   * `today` and fresh uuid `uuid`; what it returns is stated by
   * `GenerateGuidShape`.
   */
  function GenerateGuid(typ: string, id: Option<string>, domain: string,
                        today: DateTime, uuid: string): Option<string>
  {
    var ident := Identifier(id, uuid);
    var kind := Lower(typ);
    if kind == GUID_TAG then Some(TagGuid(domain, today.year, ident))
    else if kind == GUID_NEWSML then Some(NewsmlGuid(domain, today, ident))
    else None
  }

  /**
   * A value exactly for the types `tag` and `newsml` in any letter case,
   * with that type's prefix and ending in the identifier; None for any other
   * type.
   */
  lemma GenerateGuidShape(typ: string, id: Option<string>, domain: string, today: DateTime, uuid: string)
    ensures var r := GenerateGuid(typ, id, domain, today, uuid);
      && (r.Some? <==> Lower(typ) == GUID_TAG || Lower(typ) == GUID_NEWSML)
      && (Lower(typ) == GUID_TAG ==> r.Some? && StartsWith(r.value, "tag:"))
      && (Lower(typ) == GUID_NEWSML ==> r.Some? && StartsWith(r.value, "urn:newsml:"))
      && (r.Some? ==> EndsWith(r.value, ":" + Identifier(id, uuid)))
  {
    var ident := Identifier(id, uuid);
    Framed("tag:", domain, ":", DecimalString(today.year), ":", ident);
    Framed("urn:newsml:", domain, ":", IsoFormat(today), ":", ident);
  }

  /** A string built as `prefix + a + b + c + sep + last` starts with `prefix` and ends with `sep + last`. */
  lemma Framed(prefix: string, a: string, b: string, c: string, sep: string, last: string)
    ensures StartsWith(prefix + a + b + c + sep + last, prefix)
    ensures EndsWith(prefix + a + b + c + sep + last, sep + last)
  {
    var s := prefix + a + b + c + sep + last;
    assert s == prefix + (a + b + c + sep + last);
    assert s == (prefix + a + b + c) + (sep + last);
  }

  /** The two formats are told apart by their first character. */
  lemma GuidFormatsDisjoint(d1: string, y: nat, id1: string, d2: string, t: DateTime, id2: string)
    ensures TagGuid(d1, y, id1) != NewsmlGuid(d2, t, id2)
  {
    assert TagGuid(d1, y, id1)[0] == 't';
    assert NewsmlGuid(d2, t, id2)[0] == 'u';
  }

  /** The type names the hooks pass are recognised. */
  lemma KnownTypes()
    ensures Lower(GUID_TAG) == GUID_TAG && Lower(GUID_NEWSML) == GUID_NEWSML
  {
    assert Lower(GUID_TAG) == GUID_TAG by {
      assert forall i :: 0 <= i < 3 ==> Lower(GUID_TAG)[i] == GUID_TAG[i];
    }
    assert Lower(GUID_NEWSML) == GUID_NEWSML by {
      assert forall i :: 0 <= i < 6 ==> Lower(GUID_NEWSML)[i] == GUID_NEWSML[i];
    }
  }

  /** What `generate_guid(type='tag')` (no id hint) returns. */
  lemma GenerateTagGuid(domain: string, today: DateTime, uuid: string)
    ensures GenerateGuid(GUID_TAG, None, domain, today, uuid) == Some(TagGuid(domain, today.year, uuid))
  {
    KnownTypes();
  }

  /** What `generate_guid(type='newsml')` (no id hint) returns. */
  lemma GenerateNewsmlGuid(domain: string, today: DateTime, uuid: string)
    ensures GenerateGuid(GUID_NEWSML, None, domain, today, uuid) == Some(NewsmlGuid(domain, today, uuid))
  {
    KnownTypes();
  }

  /** The type is compared case-insensitively. */
  lemma GenerateGuidIgnoresCase(typ: string, id: Option<string>, domain: string,
                                today: DateTime, uuid: string)
    ensures GenerateGuid(Upper(typ), id, domain, today, uuid) == GenerateGuid(typ, id, domain, today, uuid)
    ensures GenerateGuid(Lower(typ), id, domain, today, uuid) == GenerateGuid(typ, id, domain, today, uuid)
  {
    LowerIgnoresCase(typ);
  }

  /** Decode a `tag:` GUID into domain, year and identifier (domain without ':'). */
  function ParseTagGuid(g: string): Option<(string, nat, string)> {
    if |g| < 4 || g[..4] != "tag:" then None
    else match SplitFirst(g[4..], ':')
      case None => None
      case Some((domain, rest)) =>
        match SplitFirst(rest, ':')
        case None => None
        case Some((year, id)) =>
          match ParseDecimal(year)
          case None => None
          case Some(y) => Some((domain, y, id))
  }

  /** Decode a `urn:newsml:` GUID into domain, timestamp and identifier (domain without ':'). */
  function ParseNewsmlGuid(g: string): Option<(string, string, string)> {
    if |g| < 11 || g[..11] != "urn:newsml:" then None
    else match SplitFirst(g[11..], ':')
      case None => None
      case Some((domain, r1)) =>
        match SplitFirst(r1, ':')
        case None => None
        case Some((hours, r2)) =>
          match SplitFirst(r2, ':')
          case None => None
          case Some((minutes, r3)) =>
            match SplitFirst(r3, ':')
            case None => None
            case Some((seconds, id)) => Some((domain, hours + ":" + minutes + ":" + seconds, id))
  }

  /** A tag GUID gives back its domain, year and identifier. */
  lemma TagGuidRoundTrip(domain: string, year: nat, id: string)
    requires ':' !in domain
    ensures ParseTagGuid(TagGuid(domain, year, id)) == Some((domain, year, id))
  {
    var g := TagGuid(domain, year, id);
    var ys := DecimalString(year);
    assert g[..4] == "tag:";
    assert g[4..] == domain + [':'] + (ys + [':'] + id);
    SplitFirstAt(domain, ':', ys + [':'] + id);
    SplitFirstAt(ys, ':', id);
    DecimalRoundTrip(year);
  }

  /** A newsml GUID gives back its domain, timestamp and identifier. */
  lemma NewsmlGuidRoundTrip(domain: string, t: DateTime, id: string)
    requires ':' !in domain
    ensures ParseNewsmlGuid(NewsmlGuid(domain, t, id)) == Some((domain, IsoFormat(t), id))
  {
    var hours := DatePart(t) + "T" + Pad(t.hour, 2);
    var minutes := Pad(t.minute, 2);
    var seconds := SecondsPart(t);
    var r3 := seconds + [':'] + id;
    var r2 := minutes + [':'] + r3;
    var r1 := hours + [':'] + r2;
    var rest := domain + [':'] + r1;
    NewsmlGuidShape(domain, t, id);
    NoColonInTimestampParts(t);
    assert NewsmlGuid(domain, t, id)[11..] == rest;
    SplitFirstAt(domain, ':', r1);
    SplitFirstAt(hours, ':', r2);
    SplitFirstAt(minutes, ':', r3);
    SplitFirstAt(seconds, ':', id);
  }

  /** A newsml GUID laid out as prefix, domain and the three colon-separated timestamp parts. */
  lemma NewsmlGuidShape(domain: string, t: DateTime, id: string)
    ensures NewsmlGuid(domain, t, id) ==
      "urn:newsml:" + (domain + [':'] + ((DatePart(t) + "T" + Pad(t.hour, 2)) + [':'] +
                       (Pad(t.minute, 2) + [':'] + (SecondsPart(t) + [':'] + id))))
  {
    Regroup("urn:newsml:", domain, DatePart(t) + "T" + Pad(t.hour, 2), Pad(t.minute, 2), SecondsPart(t), id);
  }

  lemma Regroup(p: string, d: string, h: string, m: string, s: string, id: string)
    ensures p + d + ":" + (h + ":" + m + ":" + s) + ":" + id ==
            p + (d + [':'] + (h + [':'] + (m + [':'] + (s + [':'] + id))))
  {
  }

  lemma NoColonInTimestampParts(t: DateTime)
    ensures ':' !in DatePart(t) + "T" + Pad(t.hour, 2) && ':' !in SecondsPart(t)
  {
  }

  /** For a valid datetime the timestamp has 19 characters, or 26 with microseconds. */
  lemma IsoFormatLength(t: DateTime)
    requires t.Valid()
    ensures |IsoFormat(t)| == if t.microsecond == 0 then 19 else 26
  {
    assert Pow10(2) == 100 && Pow10(4) == 10000 && Pow10(6) == 1000000;
    PadLength(t.year, 4);
    PadLength(t.month, 2);
    PadLength(t.day, 2);
    PadLength(t.hour, 2);
    PadLength(t.minute, 2);
    PadLength(t.second, 2);
    if t.microsecond != 0 {
      PadLength(t.microsecond, 6);
    }
  }

  /** From year 1000 on, the year of a tag GUID is written with four digits. */
  lemma TagYearHasFourDigits(t: DateTime)
    requires t.Valid() && t.year >= 1000
    ensures |DecimalString(t.year)| == 4
  {
    assert Pow10(3) == 1000 && Pow10(4) == 10000;
    DecimalLength(t.year, 4);
  }
}
